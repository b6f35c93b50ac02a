/** The timing of `zookeeper_interest`: when silence is given up on, when a ping is due, and
    how long the caller may wait. */
module Timers {

  /** A `struct timeval`. */
  datatype Time = Time(sec: int, usec: int) {
    /** In microseconds. */
    function Total(): int { sec * 1_000_000 + usec }

    predicate Normal() { 0 <= usec < 1_000_000 }
  }

  /** Division of C: towards zero. */
  function Quotient(a: int, b: int): int
    requires b > 0
  {
    if a >= 0 then a / b else -(-a / b)
  }

  /** `calculate_interval`, in milliseconds */
  function Interval(start: Time, end: Time): int {
    (end.sec - start.sec) * 1000 + Quotient(end.usec - start.usec, 1000)
  }

  /** The interval is less than a millisecond off. */
  lemma IntervalAccurate(start: Time, end: Time)
    ensures -1000 < 1000 * Interval(start, end) - (end.Total() - start.Total()) < 1000
  {
    var u := end.usec - start.usec;
    assert u == 1000 * (u / 1000) + u % 1000;
    assert -u == 1000 * (-u / 1000) + -u % 1000;
  }

  /** `get_timeval` */
  function GetTimeval(interval: int): (tv: Time)
    ensures tv.Normal() && tv.Total() == 1000 * if interval < 0 then 0 else interval
  {
    var i := if interval < 0 then 0 else interval;
    Time(i / 1000, i % 1000 * 1000)
  }

  datatype Decision = TimedOut | Wait(tv: Time, ping: bool)

  /** The silence, in milliseconds, after which a connection is given up, and the time without
      a packet sent after which a ping is due. */
  function SilenceLimit(timeout: int): int { Quotient(timeout * 2, 3) }

  function PingLimit(timeout: int): int { Quotient(timeout, 3) }

  /** Two thirds and one third of the timeout, to the millisecond below, or, for a negative one,
      above. */
  lemma LimitsAreThirds(timeout: int)
    ensures timeout >= 0 ==> 3 * SilenceLimit(timeout) <= 2 * timeout < 3 * SilenceLimit(timeout) + 3
    ensures timeout >= 0 ==> 3 * PingLimit(timeout) <= timeout < 3 * PingLimit(timeout) + 3
    ensures timeout < 0 ==> 3 * SilenceLimit(timeout) - 3 < 2 * timeout <= 3 * SilenceLimit(timeout)
    ensures timeout < 0 ==> 3 * PingLimit(timeout) - 3 < timeout <= 3 * PingLimit(timeout)
  {
  }

  class Timer {
    var recvTimeout: int
    var lastRecv: Time
    var lastSend: Time
    var nextDeadline: Time

    constructor (recvTimeout: int, now: Time)
      ensures this.recvTimeout == recvTimeout && lastRecv == now && lastSend == now
    {
      this.recvTimeout, lastRecv, lastSend, nextDeadline := recvTimeout, now, now, Time(0, 0);
    }

    /** How long the caller may wait, in milliseconds: until the silence limit, and until the
        next ping is due. */
    function Allowance(now: Time, connected: bool, ping: bool): int
      reads this
    {
      var toSilence := SilenceLimit(recvTimeout) - Interval(lastRecv, now);
      var toPing := PingLimit(recvTimeout) - if connected && !ping then Interval(lastSend, now) else 0;
      var least := if toSilence < toPing then toSilence else toPing;
      if least < 0 then 0 else least
    }

    /** The timing part of `zookeeper_interest`, for an open connection.  It is given up
        exactly when the measured silence has reached its limit; a ping is queued exactly when
        nothing is outstanding and nothing has been sent for the ping limit; the wait oversteps
        neither. */
    method Interest(now: Time, connected: bool, outstanding: bool) returns (r: Decision)
      modifies `nextDeadline
      ensures r == TimedOut <==> Interval(lastRecv, now) >= SilenceLimit(recvTimeout)
      ensures r.Wait? ==> (r.ping <==> connected && !outstanding && Interval(lastSend, now) >= PingLimit(recvTimeout))
      ensures r.Wait? ==> r.tv.Normal() && r.tv.Total() == 1000 * Allowance(now, connected, r.ping)
      ensures r.Wait? ==> nextDeadline == Deadline(now, r.tv)
    {
      hide Quotient, Interval;
      var idleRecv := Interval(lastRecv, now);
      var idleSend := Interval(lastSend, now);
      var recvTo := Quotient(recvTimeout * 2, 3) - idleRecv;
      var sendTo := Quotient(recvTimeout, 3);
      if recvTo <= 0 { return TimedOut; }
      var ping := false;
      if connected {
        sendTo := Quotient(recvTimeout, 3) - idleSend;
        if sendTo <= 0 && !outstanding {
          ping := true;
          sendTo := Quotient(recvTimeout, 3);
        }
      }
      var tv := GetTimeval(if recvTo < sendTo then recvTo else sendTo);
      nextDeadline := Time(now.sec + tv.sec, now.usec + tv.usec);
      if nextDeadline.usec > 1_000_000 {
        nextDeadline := Time(nextDeadline.sec + nextDeadline.usec / 1_000_000, nextDeadline.usec % 1_000_000);
      }
      r := Wait(tv, ping);
    }
  }

  /** Now and the wait, carried over to seconds when there is more than one in microseconds. */
  function Deadline(now: Time, tv: Time): Time {
    var usec := now.usec + tv.usec;
    if usec > 1_000_000 then Time(now.sec + tv.sec + usec / 1_000_000, usec % 1_000_000)
    else Time(now.sec + tv.sec, usec)
  }

  /** The deadline is right, and normalised unless the microseconds add up to exactly a second. */
  lemma DeadlineExact(now: Time, tv: Time)
    requires now.Normal() && tv.Normal()
    ensures Deadline(now, tv).Total() == now.Total() + tv.Total()
    ensures Deadline(now, tv).Normal() <==> now.usec + tv.usec != 1_000_000
  {
    var usec := now.usec + tv.usec;
    assert usec == 1_000_000 * (usec / 1_000_000) + usec % 1_000_000;
  }

  /** The wait is the longest that oversteps neither limit, unless one is overstepped already. */
  lemma LongestWait(t: Timer, now: Time, connected: bool, ping: bool, wait: nat)
    requires Interval(t.lastRecv, now) < SilenceLimit(t.recvTimeout)
    ensures wait == 0 ==> wait <= t.Allowance(now, connected, ping)
    ensures wait > 0 ==>
              (wait <= t.Allowance(now, connected, ping) <==>
                 && Interval(t.lastRecv, now) + wait <= SilenceLimit(t.recvTimeout)
                 && (if connected && !ping then Interval(t.lastSend, now) else 0) + wait <= PingLimit(t.recvTimeout))
  {
  }

  /** Half a second to wait at half past a second. */
  lemma DeadlineNotNormal()
    ensures GetTimeval(500) == Time(0, 500_000)
    ensures Deadline(Time(7, 500_000), GetTimeval(500)) == Time(7, 1_000_000)
  {
  }

  // ---------------------------------------------------------------- runs

  /** A caller that comes back within the time it is given is not late for the silence limit
      by a millisecond. */
  lemma SilenceIsCaught(t: Timer, now: Time, next: Time, connected: bool, ping: bool)
    requires Interval(t.lastRecv, now) < SilenceLimit(t.recvTimeout)
    requires next.Total() <= now.Total() + 1000 * t.Allowance(now, connected, ping)
    ensures next.Total() - t.lastRecv.Total() < 1000 * SilenceLimit(t.recvTimeout) + 1000
  {
    IntervalAccurate(t.lastRecv, now);
  }

  /** What the caller finds at one call, when something was last sent by then, and how long it
      wants to sleep after it. */
  datatype Round = Round(connected: bool, outstanding: bool, lastSend: Time, nap: nat)

  /** Calls `zookeeper_interest` again and again while nothing arrives, never sleeping longer
      than told.  However long the run, and whatever is sent in it, at every call the silence
      has been shorter than two thirds of the timeout and a millisecond; and it is given up no
      more than a millisecond sooner, and only then. */
  method WaitInSilence(t: Timer, start: Time, rounds: seq<Round>) returns (now: Time, r: Decision, n: nat)
    requires start.Total() - t.lastRecv.Total() < 1000 * SilenceLimit(t.recvTimeout) + 1000
    modifies t`nextDeadline, t`lastSend
    ensures now.Total() - t.lastRecv.Total() < 1000 * SilenceLimit(t.recvTimeout) + 1000
    ensures r == TimedOut ==> now.Total() - t.lastRecv.Total() > 1000 * SilenceLimit(t.recvTimeout) - 1000
    ensures t.recvTimeout >= 0 ==> 3 * (now.Total() - t.lastRecv.Total()) < 2000 * t.recvTimeout + 3000
    ensures t.recvTimeout >= 0 && r == TimedOut ==>
              3 * (now.Total() - t.lastRecv.Total()) > 2000 * t.recvTimeout - 5000
    ensures n <= |rounds| && (n < |rounds| ==> r == TimedOut)
    ensures start.Total() <= now.Total()
  {
    hide Interval, SilenceLimit, PingLimit, GetTimeval;
    LimitsAreThirds(t.recvTimeout);
    now, r, n := start, Wait(Time(0, 0), false), 0;
    while n < |rounds|
      invariant n <= |rounds| && r.Wait? && start.Total() <= now.Total()
      invariant now.Total() - t.lastRecv.Total() < 1000 * SilenceLimit(t.recvTimeout) + 1000
    {
      var round := rounds[n];
      t.lastSend := round.lastSend;
      r := t.Interest(now, round.connected, round.outstanding);
      if r == TimedOut {
        IntervalAccurate(t.lastRecv, now);
        return;
      }
      var nap := if round.nap < r.tv.Total() then round.nap else r.tv.Total();
      var next := Time(now.sec, now.usec + nap);
      SilenceIsCaught(t, now, next, round.connected, r.ping);
      now := next;
      n := n + 1;
    }
  }

  /** A connected client with nothing outstanding has queued a ping by the time it has sent
      nothing for a third of the timeout, and no sooner, to within a millisecond. */
  lemma PingIsDue(timeout: int, lastSend: Time, now: Time)
    ensures now.Total() - lastSend.Total() >= 1000 * PingLimit(timeout) + 1000 ==>
              Interval(lastSend, now) >= PingLimit(timeout)
    ensures Interval(lastSend, now) >= PingLimit(timeout) ==>
              now.Total() - lastSend.Total() > 1000 * PingLimit(timeout) - 1000
  {
    IntervalAccurate(lastSend, now);
  }

  /** And a caller that comes back in time lets it be late by no more than that. */
  lemma PingIsNotLate(t: Timer, now: Time, next: Time)
    requires next.Total() <= now.Total() + 1000 * t.Allowance(now, true, false)
    requires Interval(t.lastSend, now) < PingLimit(t.recvTimeout)
    requires Interval(t.lastRecv, now) < SilenceLimit(t.recvTimeout)
    ensures next.Total() - t.lastSend.Total() < 1000 * PingLimit(t.recvTimeout) + 1000
  {
    IntervalAccurate(t.lastSend, now);
  }

  /** When something was last received by one call, and how long the caller wants to sleep
      after it. */
  datatype Lull = Lull(lastRecv: Time, nap: nat)

  /** Calls `zookeeper_interest` again and again on a connection with nothing outstanding, never
      sleeping longer than told.  However long the run, and whatever arrives in it, until a ping
      is queued or the connection given up, nothing has been sent for less than a third of the
      timeout and a millisecond; and the ping is queued no more than a millisecond sooner. */
  method WaitToPing(t: Timer, start: Time, lulls: seq<Lull>) returns (now: Time, r: Decision, n: nat)
    requires start.Total() - t.lastSend.Total() < 1000 * PingLimit(t.recvTimeout) + 1000
    modifies t`nextDeadline, t`lastRecv
    ensures now.Total() - t.lastSend.Total() < 1000 * PingLimit(t.recvTimeout) + 1000
    ensures r.Wait? && r.ping ==> now.Total() - t.lastSend.Total() > 1000 * PingLimit(t.recvTimeout) - 1000
    ensures t.recvTimeout >= 0 ==> 3 * (now.Total() - t.lastSend.Total()) < 1000 * t.recvTimeout + 3000
    ensures t.recvTimeout >= 0 && r.Wait? && r.ping ==>
              3 * (now.Total() - t.lastSend.Total()) > 1000 * t.recvTimeout - 5000
    ensures n <= |lulls| && (n < |lulls| ==> r == TimedOut || r.ping)
    ensures start.Total() <= now.Total()
  {
    hide Interval, SilenceLimit, PingLimit, GetTimeval;
    LimitsAreThirds(t.recvTimeout);
    now, r, n := start, Wait(Time(0, 0), false), 0;
    while n < |lulls|
      invariant n <= |lulls| && r.Wait? && !r.ping && start.Total() <= now.Total()
      invariant now.Total() - t.lastSend.Total() < 1000 * PingLimit(t.recvTimeout) + 1000
    {
      t.lastRecv := lulls[n].lastRecv;
      r := t.Interest(now, true, false);
      if r == TimedOut { return; }
      if r.ping {
        PingIsDue(t.recvTimeout, t.lastSend, now);
        return;
      }
      var nap := if lulls[n].nap < r.tv.Total() then lulls[n].nap else r.tv.Total();
      var next := Time(now.sec, now.usec + nap);
      PingIsNotLate(t, now, next);
      now := next;
      n := n + 1;
    }
  }
}

/** The timer driver: a list of software timers that a polling worker scans
    for expiry. Each timer is a node object whose fields the API updates in
    place; the driver owns the list of nodes. Times are microseconds read
    from UtilSystemTime, passed in here as `now`. */
module Timer {
  import opened CTypes

  /** Identity of a timer callback function (never NULL inside a node). */
  type Callback = nat

  /** One node of the timer list (`tTimerNode`); the object is the handle. */
  class TimerNode {
    var callback: Callback
    var running: bool
    var startTime: u64
    var periodUs: u32

    constructor (cb: Callback)
      ensures callback == cb && !running && startTime == 0 && periodUs == 0
    {
      callback := cb;
      running := false;
      startTime := 0;
      periodUs := 0;
    }
  }

  // ---------------------------------------------------------------------------
  // Expiry and rescheduling arithmetic
  // ---------------------------------------------------------------------------

  /** The period TimerStart stores for `periodMs` milliseconds (a uint32_t
      product, so it wraps for periods above 4294967 ms). */
  function PeriodUs(periodMs: u32): (r: u32)
    ensures periodMs <= 4294967 ==> r == periodMs * 1000
  {
    Mul32(periodMs, 1000)
  }

  /** The expiry test of the polling scan: running, and more than one period
      elapsed, where the elapsed time is a wrapping uint64_t difference. */
  predicate Expired(running: bool, start: u64, period: u32, now: u64)
  {
    running && Sub64(now, start) > period
  }

  /** The start time TimerRestart leaves behind: one period after the old
      start, unless the timer already overran, in which case exactly one
      period before `now`. */
  function RestartedStart(start: u64, period: u32, now: u64): (r: u64)
  {
    var advanced := Add64(start, period);
    if Sub64(now, advanced) > period then Sub64(now, period) else advanced
  }

  /** A timer started at `start` is due at `start + period + eps` exactly when
      eps is positive: the comparison is strict. */
  lemma StartedTimerDueIff(start: u64, period: u32, eps: int)
    requires 0 <= period + eps && start + period + eps < U64_LIMIT
    ensures Expired(true, start, period, start + period + eps) <==> eps > 0
  {
  }

  /** Immediately after a restart at `now`, the timer is not due at `now`. */
  lemma {:induction false} RestartNotDueAtSameInstant(start: u64, period: u32, now: u64)
    ensures Sub64(now, RestartedStart(start, period, now)) <= period
    ensures !Expired(true, RestartedStart(start, period, now), period, now)
  {
    var advanced := Add64(start, period);
    if Sub64(now, advanced) > period {
      CatchUpElapsed(period, now);
    }
  }

  /** Setting the start to `now - period` leaves exactly one period elapsed. */
  lemma CatchUpElapsed(period: u32, now: u64)
    ensures Sub64(now, Sub64(now, period)) == period
  {
    if period <= now {
      assert Sub64(now, period) == now - period;
    } else {
      assert Sub64(now, period) == now - period + U64_LIMIT;
    }
  }

  /** Drift-free cadence: when the timer did not overrun by more than one
      period, the restart moves the start by exactly one period. */
  lemma RestartKeepsCadence(start: u64, period: u32, now: u64)
    requires Sub64(now, Add64(start, period)) <= period
    ensures RestartedStart(start, period, now) == Add64(start, period)
  {
  }

  /** Catch-up: after an overrun the restarted timer is due at every later
      poll (as long as the clock does not wrap past the new start). */
  lemma {:induction false} RestartAfterOverrunFiresNextPoll(start: u64, period: u32, now: u64, later: u64)
    requires Sub64(now, Add64(start, period)) > period
    requires now < later && later - now < U64_LIMIT - period
    ensures RestartedStart(start, period, now) == Sub64(now, period)
    ensures Expired(true, RestartedStart(start, period, now), period, later)
  {
    var s := Sub64(now, period);
    CatchUpElapsed(period, now);
    if period <= now {
      assert s == now - period;
      assert Sub64(later, s) == later - now + period;
    } else {
      assert s == now - period + U64_LIMIT;
      assert later < s by {
        assert later - now < U64_LIMIT - period;
      }
      assert Sub64(later, s) == later - now + period;
    }
  }

  /** The uint64_t wrap in the overrun test: a timer restarted BEFORE it
      expired (less than one period since its start, no clock wrap) counts as
      overrun, so it is rescheduled to `now - period` and fires at the very
      next poll instead of one period after its old start. */
  lemma {:induction false} RestartBeforeExpiryFiresNextPoll(start: u64, period: u32, now: u64, later: u64)
    requires start <= now < start + period
    requires start + period < U64_LIMIT
    requires now < later && later - now < U64_LIMIT - period
    ensures Sub64(now, Add64(start, period)) > period
    ensures RestartedStart(start, period, now) == now - period + (if period <= now then 0 else U64_LIMIT)
    ensures RestartedStart(start, period, now) != Add64(start, period)
    ensures Expired(true, RestartedStart(start, period, now), period, later)
  {
    assert Add64(start, period) == start + period;
    assert Sub64(now, start + period) == now - start - period + U64_LIMIT;
    RestartAfterOverrunFiresNextPoll(start, period, now, later);
  }

  // ---------------------------------------------------------------------------
  // The list of timers
  // ---------------------------------------------------------------------------

  predicate Distinct(s: seq<TimerNode>)
  {
    forall i, j :: 0 <= i < j < |s| ==> s[i] != s[j]
  }

  /** The list with `t` unlinked, the order of the rest kept. */
  function Without(s: seq<TimerNode>, t: TimerNode?): (r: seq<TimerNode>)
    ensures forall n :: n in r ==> n in s && n != t
    ensures forall n :: n in s && n != t ==> n in r
    ensures |r| <= |s|
  {
    if s == [] then []
    else if s[0] == t then Without(s[1..], t)
    else [s[0]] + Without(s[1..], t)
  }

  lemma {:induction false} WithoutAbsent(s: seq<TimerNode>, t: TimerNode?)
    requires t !in s
    ensures Without(s, t) == s
  {
    if s != [] {
      WithoutAbsent(s[1..], t);
    }
  }

  lemma {:induction false} WithoutConcat(a: seq<TimerNode>, b: seq<TimerNode>, t: TimerNode?)
    ensures Without(a + b, t) == Without(a, t) + Without(b, t)
  {
    if a == [] {
      assert a + b == b;
    } else {
      assert (a + b)[1..] == a[1..] + b;
      WithoutConcat(a[1..], b, t);
    }
  }

  /** Unlinking the one occurrence of `t` from a list of distinct handles. */
  lemma WithoutSplit(a: seq<TimerNode>, t: TimerNode, b: seq<TimerNode>)
    requires t !in a && t !in b
    ensures Without(a + [t] + b, t) == a + b
  {
    assert Without([t], t) == [] by {
      assert [t][1..] == [];
    }
    assert Without(a + [t], t) == a by {
      WithoutConcat(a, [t], t);
      WithoutAbsent(a, t);
      assert a + [] == a;
    }
    WithoutConcat(a + [t], b, t);
    WithoutAbsent(b, t);
  }

  /** Unlinking keeps the handles distinct and removes exactly one element
      when the handle is present. */
  lemma {:induction false} WithoutDistinct(s: seq<TimerNode>, t: TimerNode?)
    requires Distinct(s)
    ensures Distinct(Without(s, t))
    ensures t in s ==> |Without(s, t)| == |s| - 1
    ensures t !in s ==> Without(s, t) == s
  {
    if t !in s {
      WithoutAbsent(s, t);
    } else if s != [] {
      assert Distinct(s[1..]);
      WithoutDistinct(s[1..], t);
      if s[0] == t {
        assert t !in s[1..];
      } else {
        assert s[0] !in Without(s[1..], t);
      }
    }
  }

  predicate IsDue(n: TimerNode, now: u64)
    reads n
  {
    Expired(n.running, n.startTime, n.periodUs, now)
  }

  /** The timers the polling scan fires at `now`, in list order. */
  function DueTimers(s: seq<TimerNode>, now: u64): (r: seq<TimerNode>)
    reads s
    ensures forall n :: n in r ==> n in s && IsDue(n, now)
    ensures forall n :: n in s && IsDue(n, now) ==> n in r
    ensures |r| <= |s|
  {
    if s == [] then []
    else DueTimers(s[..|s| - 1], now) + (if IsDue(s[|s| - 1], now) then [s[|s| - 1]] else [])
  }

  /** The scan visits the list in order: two due timers are reported in the
      order in which they sit in the list. */
  lemma {:induction false} DueTimersKeepOrder(s: seq<TimerNode>, now: u64, i: int, j: int)
    requires Distinct(s)
    requires 0 <= i < j < |s| && IsDue(s[i], now) && IsDue(s[j], now)
    ensures exists a, b :: 0 <= a < b < |DueTimers(s, now)| && DueTimers(s, now)[a] == s[i] && DueTimers(s, now)[b] == s[j]
  {
    var init := s[..|s| - 1];
    assert DueTimers(s, now) == DueTimers(init, now) + (if IsDue(s[|s| - 1], now) then [s[|s| - 1]] else []);
    if j < |s| - 1 {
      assert Distinct(init);
      assert init[i] == s[i] && init[j] == s[j];
      DueTimersKeepOrder(init, now, i, j);
      var a, b :| 0 <= a < b < |DueTimers(init, now)| && DueTimers(init, now)[a] == s[i] && DueTimers(init, now)[b] == s[j];
      assert DueTimers(s, now)[a] == s[i] && DueTimers(s, now)[b] == s[j];
    } else {
      assert s[i] in init && IsDue(s[i], now);
      var d := DueTimers(init, now);
      assert s[i] in d;
      var a :| 0 <= a < |d| && d[a] == s[i];
      var r := DueTimers(s, now);
      assert r == d + [s[j]];
      assert r[a] == s[i] && r[|d|] == s[j];
    }
  }

  /** The scan fires each timer of a list of distinct handles at most once. */
  lemma {:induction false} DueTimersDistinct(s: seq<TimerNode>, now: u64)
    requires Distinct(s)
    ensures Distinct(DueTimers(s, now))
  {
    if s != [] {
      var init := s[..|s| - 1];
      var last := s[|s| - 1];
      assert Distinct(init);
      DueTimersDistinct(init, now);
      var d := DueTimers(init, now);
      if IsDue(last, now) {
        assert last !in init by {
          forall i | 0 <= i < |init|
            ensures init[i] != last
          {
            assert init[i] == s[i];
          }
        }
        assert last !in d;
        var r := d + [last];
        forall i, j | 0 <= i < j < |r|
          ensures r[i] != r[j]
        {
          if j < |d| {
            assert r[i] == d[i] && r[j] == d[j];
          } else {
            assert r[i] == d[i] && d[i] in d;
          }
        }
      } else {
        assert DueTimers(s, now) == d + [];
      }
    }
  }

  /** Timers that are not running are never due. */
  lemma StoppedTimersNeverDue(s: seq<TimerNode>, now: u64, t: TimerNode)
    requires t in s && !t.running
    ensures t !in DueTimers(s, now)
  {
  }

  /** The timer driver: the list of timer nodes and the polling worker's
      flags (`timerPollingThreadRunning`, `timerStopPollingThread`). */
  class TimerTable {
    var timers: seq<TimerNode>
    var pollingThreadRunning: bool
    var stopPollingThread: bool

    ghost predicate Valid()
      reads this
    {
      Distinct(timers)
    }

    /** TimerInit: an empty list; the worker runs when it could be started. */
    constructor Init(threadStarted: bool)
      ensures Valid()
      ensures timers == [] && pollingThreadRunning == threadStarted && !stopPollingThread
    {
      timers := [];
      stopPollingThread := false;
      pollingThreadRunning := threadStarted;
    }

    /** TimerTerminate: stops the worker and releases every remaining node,
        running or not, from the head of the list onwards. */
    method Terminate() returns (released: seq<TimerNode>)
      modifies this
      ensures Valid()
      ensures released == old(timers)
      ensures timers == [] && !pollingThreadRunning && !stopPollingThread
    {
      if pollingThreadRunning {
        stopPollingThread := true;
      }
      released := [];
      var rest := timers;
      while rest != []
        invariant released + rest == old(timers)
        decreases |rest|
      {
        released := released + [rest[0]];
        rest := rest[1..];
      }
      timers := [];
      stopPollingThread := false;
      pollingThreadRunning := false;
    }

    /** TimerCreate: with a callback and memory, a new idle node at the head
        of the list; otherwise NULL and the list as it was. */
    method Create(callback: Option<Callback>, memoryOk: bool) returns (t: TimerNode?)
      requires Valid()
      modifies this`timers
      ensures Valid()
      ensures callback.None? || !memoryOk ==> t == null && timers == old(timers)
      ensures callback.Some? && memoryOk ==>
        t != null && fresh(t) && timers == [t] + old(timers)
        && t.callback == callback.value && !t.running && t.startTime == 0 && t.periodUs == 0
    {
      t := null;
      if callback.Some? {
        if memoryOk {
          var node := new TimerNode(callback.value);
          timers := [node] + timers;
          t := node;
        }
      }
    }

    /** TimerDelete: unlinks the node (head or interior) and releases it;
        nothing happens for NULL, an empty list or a handle not in the list. */
    method Delete(t: TimerNode?) returns (released: bool)
      requires Valid()
      modifies this`timers
      ensures Valid()
      ensures timers == Without(old(timers), t)
      ensures released <==> t != null && t in old(timers)
      ensures t !in timers
    {
      released := false;
      WithoutDistinct(timers, t);
      if t != null {
        if |timers| > 0 {
          if timers[0] == t {
            WithoutSplit([], t, timers[1..]);
            assert [] + [t] + timers[1..] == timers;
            timers := timers[1..];
            released := true;
          } else {
            var i := 0;
            while i + 1 < |timers|
              invariant 0 <= i < |timers|
              invariant timers == old(timers)
              invariant t !in timers[..i + 1]
              decreases |timers| - i
            {
              if timers[i + 1] == t {
                var before, after := timers[..i + 1], timers[i + 2..];
                assert timers == before + [t] + after;
                assert t !in after;
                WithoutSplit(before, t, after);
                timers := before + after;
                released := true;
                break;
              }
              i := i + 1;
            }
            if !released {
              assert timers[..i + 1] == timers;
              WithoutAbsent(timers, t);
            }
          }
        }
      } else {
        WithoutAbsent(timers, t);
      }
    }

    /** TimerStart: a fresh full period from `now`, on this timer only. */
    method Start(t: TimerNode?, periodMs: u32, now: u64)
      modifies t
      ensures t != null ==> t.startTime == now && t.periodUs == PeriodUs(periodMs) && t.running
      ensures t != null ==> t.callback == old(t.callback)
    {
      if t != null {
        t.startTime := now;
        t.periodUs := Mul32(periodMs, 1000);
        t.running := true;
      }
    }

    /** TimerRestart: advances the start by one period, with the overrun
        catch-up rule; the period is kept. */
    method Restart(t: TimerNode?, now: u64)
      modifies t
      ensures t != null ==> t.startTime == RestartedStart(old(t.startTime), old(t.periodUs), now)
      ensures t != null ==> t.running && t.periodUs == old(t.periodUs) && t.callback == old(t.callback)
    {
      if t != null {
        t.startTime := Add64(t.startTime, t.periodUs);
        if Sub64(now, t.startTime) > t.periodUs {
          t.startTime := Sub64(now, t.periodUs);
        }
        t.running := true;
      }
    }

    /** TimerStop: clears the running flag only; the node stays listed. */
    method Stop(t: TimerNode?)
      modifies t
      ensures t != null ==> !t.running
      ensures t != null ==> t.startTime == old(t.startTime) && t.periodUs == old(t.periodUs) && t.callback == old(t.callback)
    {
      if t != null {
        t.running := false;
      }
    }

    /** One pass of the polling worker at time `now`: the timers whose
        callbacks it invokes, in list order. */
    method Poll(now: u64) returns (due: seq<TimerNode>)
      ensures due == DueTimers(timers, now)
      ensures forall n :: n in due <==> n in timers && n.running && Sub64(now, n.startTime) > n.periodUs
      ensures Distinct(timers) ==> Distinct(due)
    {
      due := [];
      var i := 0;
      while i < |timers|
        invariant 0 <= i <= |timers|
        invariant due == DueTimers(timers[..i], now)
      {
        var node := timers[i];
        assert timers[..i + 1][..i] == timers[..i];
        if node.running {
          if Sub64(now, node.startTime) > node.periodUs {
            due := due + [node];
          }
        }
        i := i + 1;
      }
      assert timers[..i] == timers;
      if Distinct(timers) {
        DueTimersDistinct(timers, now);
      }
    }
  }
}

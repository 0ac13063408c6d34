/** The runtime orchestrator: the program entry point that initialises the
    three drivers, connects to the bus, idles until an exit is requested and
    tears everything down, calling the application's lifecycle hooks on the
    way. Every call it makes is recorded as an event of a trace. */
module Caplin {
  import opened CTypes

  /** ASCII code of the ESC key, which requests a program exit. */
  const ESC_KEY: u8 := 27
  const EXIT_SUCCESS: int := 0

  datatype Event =
    | FindCanInterface | ParseArguments | DisplayHelp
    | TimerInit | KeysInit | CanInit | RegisterInterruptHandler
    | OnPreStart | CanConnect | ConnectError
    | OnStart | IdleSleep | OnKey(key: u8) | OnStop | CanDisconnect
    | OnPostStop | TimerTerminate | CanTerminate | KeysTerminate

  /** One delivery to a handler: a key byte from the key worker, or the
      interrupt (Ctrl+C). */
  datatype Stimulus = Interrupt | KeyPress(key: u8)

  predicate RequestsExit(s: Stimulus)
  {
    s.Interrupt? || (s.KeyPress? && s.key == ESC_KEY)
  }

  /** Whether any stimulus of a burst requests the exit. A burst is what
      arrives in one window of the idle loop, in arrival order: the key
      worker polls every 5 ms while the loop sleeps 50 ms, so one sleep can
      see several keys, and keys after an ESC are still delivered. */
  predicate BurstExits(burst: seq<Stimulus>)
  {
    burst != [] && (BurstExits(burst[..|burst| - 1]) || RequestsExit(burst[|burst| - 1]))
  }

  /** The orchestrator's state: the exit request flag, and the trace of the
      calls made so far. */
  class App {
    var exitProgram: bool
    var trace: seq<Event>

    constructor ()
      ensures !exitProgram && trace == []
    {
      exitProgram := false;
      trace := [];
    }

    method Emit(e: Event)
      modifies this`trace
      ensures trace == old(trace) + [e]
    {
      trace := trace + [e];
    }

    /** Records a fixed sequence of calls, in order. */
    method EmitAll(es: seq<Event>)
      modifies this`trace
      ensures trace == old(trace) + es
    {
      trace := trace + es;
    }

    /** AppKeyPressedCallback: ESC requests the exit and is not forwarded;
        any other key goes to OnKey once and leaves the flag alone. */
    method KeyPressed(key: u8)
      modifies this
      ensures key == ESC_KEY ==> exitProgram && trace == old(trace)
      ensures key != ESC_KEY ==> exitProgram == old(exitProgram) && trace == old(trace) + [OnKey(key)]
    {
      if key == ESC_KEY {
        exitProgram := true;
      } else {
        Emit(OnKey(key));
      }
    }

    /** Hands one stimulus to its handler: a key to AppKeyPressedCallback,
        the interrupt to AppInterruptSignalHandler. */
    method Dispatch(s: Stimulus)
      modifies this
      ensures exitProgram == (old(exitProgram) || RequestsExit(s))
      ensures trace == old(trace) + Reaction(s)
    {
      match s {
        case Interrupt => InterruptSignal();
        case KeyPress(k) => KeyPressed(k);
      }
    }

    /** Hands every stimulus of a burst to its handler, in arrival order. */
    method DispatchAll(burst: seq<Stimulus>)
      modifies this
      ensures exitProgram == (old(exitProgram) || BurstExits(burst))
      ensures trace == old(trace) + Reactions(burst)
    {
      var j := 0;
      while j < |burst|
        invariant 0 <= j <= |burst|
        invariant exitProgram == (old(exitProgram) || BurstExits(burst[..j]))
        invariant trace == old(trace) + Reactions(burst[..j])
      {
        assert burst[..j + 1][..j] == burst[..j];
        ConcatAssoc(old(trace), Reactions(burst[..j]), Reaction(burst[j]));
        Dispatch(burst[j]);
        j := j + 1;
      }
      assert burst[..j] == burst;
    }

    /** The main loop: test the exit flag, sleep, repeat. `bursts[0]` is what
        arrives before the first test, `bursts[i]` what arrives during the
        i-th sleep. */
    method IdleLoop(bursts: seq<seq<Stimulus>>)
      requires !exitProgram
      requires exists i :: 0 <= i < |bursts| && BurstExits(bursts[i])
      modifies this
      ensures exitProgram
      ensures trace == old(trace) + IdleTrace(bursts)
    {
      ghost var exitAt :| 0 <= exitAt < |bursts| && BurstExits(bursts[exitAt]);
      IdleTraceStep(bursts);
      DispatchAll(bursts[0]);
      ConcatAssoc(old(trace), Reactions(bursts[0]), [IdleSleep] + IdleTrace(bursts[1..]));
      assert Reactions(bursts[0]) + [] == Reactions(bursts[0]);
      var i := 1;
      while !exitProgram
        invariant 1 <= i <= |bursts|
        invariant !exitProgram ==> i <= exitAt
        invariant !exitProgram ==> trace + ([IdleSleep] + IdleTrace(bursts[i..])) == old(trace) + IdleTrace(bursts)
        invariant exitProgram ==> trace == old(trace) + IdleTrace(bursts)
        decreases |bursts| - i
      {
        ghost var before := trace;
        IdleStep(bursts, i, before, old(trace) + IdleTrace(bursts));
        Emit(IdleSleep);
        DispatchAll(bursts[i]);
        ConcatAssoc(before, [IdleSleep], Reactions(bursts[i]));
        i := i + 1;
      }
    }

    /** What main does after the connect attempt and before OnPostStop:
        report the failure, or run the application until an exit request. */
    method RunningPhase(connected: bool, bursts: seq<seq<Stimulus>>)
      requires !exitProgram
      requires connected ==> exists i :: 0 <= i < |bursts| && BurstExits(bursts[i])
      modifies this
      ensures trace == old(trace) + Session(connected, bursts)
      ensures connected ==> exitProgram
      ensures !connected ==> exitProgram == old(exitProgram)
    {
      if !connected {
        Emit(DisplayHelp);
        Emit(ConnectError);
      } else {
        Emit(OnStart);
        IdleLoop(bursts);
        Emit(OnStop);
        Emit(CanDisconnect);
        ConcatAssoc(old(trace), [OnStart], IdleTrace(bursts));
        ConcatAssoc(old(trace), [OnStart] + IdleTrace(bursts), [OnStop, CanDisconnect]);
      }
    }

    /** AppInterruptSignalHandler: requests the exit. */
    method InterruptSignal()
      modifies this`exitProgram
      ensures exitProgram
    {
      exitProgram := true;
    }
  }

  /** The events of the idle loop: what the first burst causes, then, as
      long as no burst has requested the exit, one sleep and what the burst
      arriving during it causes. */
  function IdleTrace(bursts: seq<seq<Stimulus>>): (r: seq<Event>)
  {
    if bursts == [] then []
    else Reactions(bursts[0]) + (if BurstExits(bursts[0]) then [] else [IdleSleep] + IdleTrace(bursts[1..]))
  }

  /** What one stimulus makes the program call: a key other than ESC is
      forwarded to OnKey; ESC and the interrupt only set the exit flag. */
  function Reaction(s: Stimulus): (r: seq<Event>)
  {
    if s.KeyPress? && s.key != ESC_KEY then [OnKey(s.key)] else []
  }

  /** What a burst makes the program call: the reactions to its stimuli,
      in arrival order. */
  function Reactions(burst: seq<Stimulus>): (r: seq<Event>)
  {
    if burst == [] then [] else Reactions(burst[..|burst| - 1]) + Reaction(burst[|burst| - 1])
  }

  /** One iteration of the idle loop, on traces: `before` is the trace when
      the iteration starts and `total` the trace the loop must end with. */
  lemma IdleStep(bursts: seq<seq<Stimulus>>, i: nat, before: seq<Event>, total: seq<Event>)
    requires i < |bursts|
    requires before + ([IdleSleep] + IdleTrace(bursts[i..])) == total
    ensures BurstExits(bursts[i]) ==> before + ([IdleSleep] + Reactions(bursts[i])) == total
    ensures !BurstExits(bursts[i]) ==>
      (before + ([IdleSleep] + Reactions(bursts[i]))) + ([IdleSleep] + IdleTrace(bursts[i + 1..])) == total
  {
    var step := [IdleSleep] + Reactions(bursts[i]);
    IdleTraceStep(bursts[i..]);
    assert bursts[i..][1..] == bursts[i + 1..];
    ConcatAssoc([IdleSleep], Reactions(bursts[i]), [IdleSleep] + IdleTrace(bursts[i + 1..]));
    if !BurstExits(bursts[i]) {
      ConcatAssoc(before, step, [IdleSleep] + IdleTrace(bursts[i + 1..]));
    }
  }

  lemma IdleTraceStep(bursts: seq<seq<Stimulus>>)
    requires bursts != []
    ensures IdleTrace(bursts) ==
      Reactions(bursts[0]) + (if BurstExits(bursts[0]) then [] else [IdleSleep] + IdleTrace(bursts[1..]))
  {
  }

  const Preamble: seq<Event> := [FindCanInterface, ParseArguments]
  const InitEvents: seq<Event> :=
    [TimerInit, KeysInit, CanInit, RegisterInterruptHandler, OnPreStart, CanConnect]
  const ShutdownEvents: seq<Event> :=
    [OnPostStop, TimerTerminate, CanTerminate, KeysTerminate]

  /** What happens between the connect attempt and the shutdown. */
  function Session(connected: bool, bursts: seq<seq<Stimulus>>): (r: seq<Event>)
  {
    if connected then [OnStart] + IdleTrace(bursts) + [OnStop, CanDisconnect]
    else [DisplayHelp, ConnectError]
  }

  /** The trace of one run of the program. */
  function MainTrace(helpRequested: bool, connected: bool, bursts: seq<seq<Stimulus>>): (r: seq<Event>)
  {
    if helpRequested then Preamble + [DisplayHelp]
    else Preamble + InitEvents + Session(connected, bursts) + ShutdownEvents
  }

  /** main: `helpRequested` is what argument parsing found, `connectResult`
      what CanConnect returns, and `bursts` what arrives in the idle loop's
      windows. Returns the exit status and the trace of the run. */
  method Run(helpRequested: bool, connectResult: bool, bursts: seq<seq<Stimulus>>) returns (status: int, trace: seq<Event>)
    requires !helpRequested && connectResult ==> exists i :: 0 <= i < |bursts| && BurstExits(bursts[i])
    ensures status == EXIT_SUCCESS
    ensures trace == MainTrace(helpRequested, connectResult, bursts)
  {
    var app := new App();
    // AppFindFirstCanInterface, AppParseArguments
    app.EmitAll(Preamble);
    if helpRequested {
      app.Emit(DisplayHelp);
      return EXIT_SUCCESS, app.trace;
    }
    // TimerInit, KeysInit, CanInit, signal(SIGINT, ...), OnPreStart, CanConnect
    app.EmitAll(InitEvents);
    var canConnected := connectResult;
    app.RunningPhase(canConnected, bursts);
    // OnPostStop, TimerTerminate, CanTerminate, KeysTerminate
    app.EmitAll(ShutdownEvents);
    status, trace := EXIT_SUCCESS, app.trace;
  }

  // ---------------------------------------------------------------------------
  // Properties of a run
  // ---------------------------------------------------------------------------

  /** A burst makes the program call nothing but OnKey, and never with ESC. */
  lemma {:induction false} ReactionsOnlyKeys(burst: seq<Stimulus>)
    ensures forall e :: e in Reactions(burst) ==> e.OnKey? && e.key != ESC_KEY
  {
    if burst != [] {
      ReactionsOnlyKeys(burst[..|burst| - 1]);
    }
  }

  /** A burst requests the exit exactly when one of its stimuli does. */
  lemma {:induction false} BurstExitsIff(burst: seq<Stimulus>)
    ensures BurstExits(burst) <==> exists i :: 0 <= i < |burst| && RequestsExit(burst[i])
  {
    if burst != [] {
      var init := burst[..|burst| - 1];
      BurstExitsIff(init);
      if BurstExits(init) {
        var i :| 0 <= i < |init| && RequestsExit(init[i]);
        assert burst[i] == init[i];
      }
      if exists i :: 0 <= i < |burst| && RequestsExit(burst[i]) {
        var i :| 0 <= i < |burst| && RequestsExit(burst[i]);
        if i < |init| {
          assert init[i] == burst[i];
        }
      }
    }
  }

  /** The reactions to two bursts in a row are the reactions to each. */
  lemma {:induction false} ReactionsConcat(a: seq<Stimulus>, b: seq<Stimulus>)
    ensures Reactions(a + b) == Reactions(a) + Reactions(b)
  {
    if b == [] {
      assert a + b == a;
    } else {
      var init := b[..|b| - 1];
      assert (a + b)[..|a + b| - 1] == a + init;
      ReactionsConcat(a, init);
      ConcatAssoc(Reactions(a), Reactions(init), Reaction(b[|b| - 1]));
    }
  }

  /** A burst with an exit request anywhere in it requests the exit. */
  lemma ExitAnywhereExits(burst: seq<Stimulus>, i: nat)
    requires i < |burst| && RequestsExit(burst[i])
    ensures BurstExits(burst)
  {
    BurstExitsIff(burst);
  }

  /** Keys that arrive in the same sleep as the exit request are still
      forwarded: everything before and after the ESC reaches OnKey. */
  lemma KeysAroundEscapeForwarded(before: seq<Stimulus>, after: seq<Stimulus>)
    ensures BurstExits(before + [KeyPress(ESC_KEY)] + after)
    ensures Reactions(before + [KeyPress(ESC_KEY)] + after) == Reactions(before) + Reactions(after)
  {
    var esc := [KeyPress(ESC_KEY)];
    var head := before + esc;
    var burst := head + after;
    assert burst[|before|] == KeyPress(ESC_KEY);
    ExitAnywhereExits(burst, |before|);
    assert Reactions(esc) == [] by {
      assert esc[..0] == [];
    }
    ReactionsConcat(before, esc);
    assert Reactions(head) == Reactions(before);
    ReactionsConcat(head, after);
  }

  /** The idle loop does nothing but sleep and forward non-exit keys. */
  lemma {:induction false} IdleTraceOnlySleepsAndKeys(bursts: seq<seq<Stimulus>>)
    ensures forall e :: e in IdleTrace(bursts) ==> e == IdleSleep || (e.OnKey? && e.key != ESC_KEY)
  {
    if bursts != [] {
      ReactionsOnlyKeys(bursts[0]);
      IdleTraceOnlySleepsAndKeys(bursts[1..]);
    }
  }

  function CountSleeps(t: seq<Event>): (n: nat)
  {
    if t == [] then 0 else (if t[0] == IdleSleep then 1 else 0) + CountSleeps(t[1..])
  }

  lemma {:induction false} CountSleepsConcat(a: seq<Event>, b: seq<Event>)
    ensures CountSleeps(a + b) == CountSleeps(a) + CountSleeps(b)
  {
    if a == [] {
      assert a + b == b;
    } else {
      assert (a + b)[1..] == a[1..] + b;
      CountSleepsConcat(a[1..], b);
    }
  }

  lemma {:induction false} CountSleepsOfKeys(t: seq<Event>)
    requires forall e :: e in t ==> e.OnKey?
    ensures CountSleeps(t) == 0
  {
    if t != [] {
      assert t[0] in t;
      CountSleepsOfKeys(t[1..]);
    }
  }

  /** The idle loop sleeps once for every burst before the first one that
      requests the exit: it leaves as soon as it finds the flag set, and
      only then. */
  lemma {:induction false} IdleLoopRunsUntilExit(bursts: seq<seq<Stimulus>>, first: nat)
    requires first < |bursts| && BurstExits(bursts[first])
    requires forall j :: 0 <= j < first ==> !BurstExits(bursts[j])
    ensures CountSleeps(IdleTrace(bursts)) == first
  {
    var key := Reactions(bursts[0]);
    ReactionsOnlyKeys(bursts[0]);
    CountSleepsOfKeys(key);
    IdleTraceStep(bursts);
    if first == 0 {
      assert IdleTrace(bursts) == key + [];
      CountSleepsConcat(key, []);
    } else {
      var tail := bursts[1..];
      var rest := IdleTrace(tail);
      assert !BurstExits(bursts[0]);
      assert IdleTrace(bursts) == key + ([IdleSleep] + rest);
      CountSleepsConcat(key, [IdleSleep] + rest);
      CountSleepsConcat([IdleSleep], rest);
      assert tail[first - 1] == bursts[first];
      assert forall j :: 0 <= j < first - 1 ==> !BurstExits(tail[j]) by {
        forall j | 0 <= j < first - 1
          ensures !BurstExits(tail[j])
        {
          assert tail[j] == bursts[j + 1];
        }
      }
      IdleLoopRunsUntilExit(tail, first - 1);
    }
  }

  /** With help requested, main returns before any driver or hook call. */
  lemma HelpReturnsBeforeInit(connected: bool, bursts: seq<seq<Stimulus>>)
    ensures MainTrace(true, connected, bursts) == [FindCanInterface, ParseArguments, DisplayHelp]
    ensures forall e :: e in InitEvents ==> e !in MainTrace(true, connected, bursts)
    ensures forall e :: e in ShutdownEvents ==> e !in MainTrace(true, connected, bursts)
  {
  }

  /** The lifecycle hooks of the running phase are called exactly when the
      connect succeeded. */
  lemma {:induction false} SessionHooks(connected: bool, bursts: seq<seq<Stimulus>>)
    ensures OnStart in Session(connected, bursts) <==> connected
    ensures OnStop in Session(connected, bursts) <==> connected
    ensures CanDisconnect in Session(connected, bursts) <==> connected
    ensures ConnectError in Session(connected, bursts) <==> !connected
  {
    IdleTraceOnlySleepsAndKeys(bursts);
    if connected {
      var idle := IdleTrace(bursts);
      assert Session(connected, bursts) == [OnStart] + idle + [OnStop, CanDisconnect];
      assert ConnectError !in idle;
    }
  }

  /** OnStart, OnStop and the main loop's disconnect happen exactly when the
      connect succeeded; every initialiser, OnPostStop and the three
      terminates always run. */
  lemma HooksFollowConnectResult(connected: bool, bursts: seq<seq<Stimulus>>)
    ensures OnStart in MainTrace(false, connected, bursts) <==> connected
    ensures OnStop in MainTrace(false, connected, bursts) <==> connected
    ensures CanDisconnect in MainTrace(false, connected, bursts) <==> connected
    ensures ConnectError in MainTrace(false, connected, bursts) <==> !connected
    ensures forall e :: e in InitEvents ==> e in MainTrace(false, connected, bursts)
    ensures forall e :: e in ShutdownEvents ==> e in MainTrace(false, connected, bursts)
  {
    var session := Session(connected, bursts);
    SessionHooks(connected, bursts);
    var t := MainTrace(false, connected, bursts);
    assert t == (Preamble + InitEvents) + session + ShutdownEvents;
    assert OnStart !in Preamble + InitEvents && OnStart !in ShutdownEvents;
    assert OnStop !in Preamble + InitEvents && OnStop !in ShutdownEvents;
    assert CanDisconnect !in Preamble + InitEvents && CanDisconnect !in ShutdownEvents;
    assert ConnectError !in Preamble + InitEvents && ConnectError !in ShutdownEvents;
  }

  /** The lifecycle calls of a run, with the idle loop's events left out. */
  function Lifecycle(t: seq<Event>): (r: seq<Event>)
  {
    if t == [] then []
    else (if t[0] == IdleSleep || t[0].OnKey? then [] else [t[0]]) + Lifecycle(t[1..])
  }

  lemma {:induction false} LifecycleConcat(a: seq<Event>, b: seq<Event>)
    ensures Lifecycle(a + b) == Lifecycle(a) + Lifecycle(b)
  {
    if a == [] {
      assert a + b == b;
    } else {
      assert (a + b)[1..] == a[1..] + b;
      LifecycleConcat(a[1..], b);
    }
  }

  lemma {:induction false} LifecycleOfIdle(t: seq<Event>)
    requires forall e :: e in t ==> e == IdleSleep || e.OnKey?
    ensures Lifecycle(t) == []
  {
    if t != [] {
      LifecycleOfIdle(t[1..]);
    }
  }

  lemma {:induction false} LifecycleOfCalls(t: seq<Event>)
    requires forall e :: e in t ==> e != IdleSleep && !e.OnKey?
    ensures Lifecycle(t) == t
  {
    if t != [] {
      assert t[0] in t;
      LifecycleOfCalls(t[1..]);
      assert t == [t[0]] + t[1..];
    }
  }

  /** The fixed call order of main: drivers initialised, OnPreStart, connect;
      OnStart, OnStop and disconnect only when connected; then OnPostStop and
      the terminates. */
  lemma MainCallOrder(connected: bool, bursts: seq<seq<Stimulus>>)
    ensures Lifecycle(MainTrace(false, connected, bursts)) ==
      Preamble + InitEvents
      + (if connected then [OnStart, OnStop, CanDisconnect] else [DisplayHelp, ConnectError])
      + ShutdownEvents
  {
    var head := Preamble + InitEvents;
    var session := Session(connected, bursts);
    FixedCallsLifecycle();
    SessionLifecycle(connected, bursts);
    LifecycleConcat(head, session);
    LifecycleConcat(head + session, ShutdownEvents);
  }

  /** The startup and shutdown calls are all lifecycle calls. */
  lemma FixedCallsLifecycle()
    ensures Lifecycle(Preamble + InitEvents) == Preamble + InitEvents
    ensures Lifecycle(ShutdownEvents) == ShutdownEvents
  {
    LifecycleOfCalls(Preamble + InitEvents);
    LifecycleOfCalls(ShutdownEvents);
  }

  lemma SessionLifecycle(connected: bool, bursts: seq<seq<Stimulus>>)
    ensures Lifecycle(Session(connected, bursts)) ==
      if connected then [OnStart, OnStop, CanDisconnect] else [DisplayHelp, ConnectError]
  {
    if connected {
      IdleTraceOnlySleepsAndKeys(bursts);
      LifecycleAroundIdle(IdleTrace(bursts));
    } else {
      LifecycleOfCalls(Session(connected, bursts));
    }
  }

  /** Without its idle events, the running phase is OnStart, OnStop and the
      disconnect, whatever the idle loop did. */
  lemma LifecycleAroundIdle(idle: seq<Event>)
    requires forall e :: e in idle ==> e == IdleSleep || e.OnKey?
    ensures Lifecycle([OnStart] + idle + [OnStop, CanDisconnect]) == [OnStart, OnStop, CanDisconnect]
  {
    var start: seq<Event> := [OnStart];
    var stop: seq<Event> := [OnStop, CanDisconnect];
    LifecycleOfIdle(idle);
    LifecycleOfCalls(start);
    LifecycleOfCalls(stop);
    LifecycleConcat(start, idle);
    assert Lifecycle(start + idle) == start + [];
    LifecycleConcat(start + idle, stop);
  }

  /** ESC never reaches the application: no OnKey of a run carries it. */
  lemma NoEscapeReachesOnKey(helpRequested: bool, connected: bool, bursts: seq<seq<Stimulus>>)
    ensures forall e :: e in MainTrace(helpRequested, connected, bursts) && e.OnKey? ==> e.key != ESC_KEY
  {
    IdleTraceOnlySleepsAndKeys(bursts);
    if !helpRequested {
      var head := Preamble + InitEvents;
      var session := Session(connected, bursts);
      assert MainTrace(helpRequested, connected, bursts) == head + session + ShutdownEvents;
      assert forall e :: e in head ==> !e.OnKey?;
      assert forall e :: e in ShutdownEvents ==> !e.OnKey?;
    }
  }
}

# caplin core in Dafny

caplin is a small runtime for writing CAN bus applications on Linux. It has
three drivers and an orchestrator:

- a timer driver keeps a list of software timers that a polling worker
  scans for expiry;
- a SocketCAN driver connects to a CAN interface, encodes messages into
  `struct can_frame` for transmission, and decodes received frames, filtering
  out remote and error frames;
- a key driver delivers key presses;
- `main` initialises the drivers, calls the application's lifecycle hooks,
  idles until ESC or Ctrl+C, and tears everything down.

This project models the sequential logic under the threads, one module per
source file:

| module | file | source |
|---|---|---|
| `CTypes` | `ctypes.dfy` | the C fixed-width integers (`uint8_t`, `uint32_t`, `uint64_t`) with their wrap-around written out, and `Option` for a nullable pointer |
| `Util` | `util.dfy` | `source/lib/util.c`: the microseconds-to-`timespec` conversion of UtilSleep and the `timespec`-to-microseconds formula of UtilSystemTime |
| `Timer` | `timer.dfy` | `source/lib/timer.c`: a `TimerNode` class per node and a `TimerTable` class with the list of nodes as a sequence field. The polling worker is one sequential pass `Poll(now)` that returns the due timers in list order |
| `Can` | `can.dfy` | `source/lib/can.c`: `Encode`/`Decode` between `CanMsg` and `CanFrame` on 32-bit identifier words, and a `CanDriver` class for the connection state machine. Each system call is an abstract outcome, and every `close()` is recorded in a log |
| `Caplin` | `caplin.dfy` | `source/lib/caplin.c`: the key and interrupt handlers on an `App` class holding the exit flag, and `main` as a method `Run` that returns the exit status and the trace of the calls it makes |

Times enter as parameters (`now`) instead of clock reads. Every `uint64_t`
subtraction is taken modulo 2^64, as in the source. So is every `uint32_t`
multiplication, modulo 2^32.

The "Catch-up" rule differs from its usual description. The overrun test in
TimerRestart (`source/lib/timer.c:301-306`) measures time from the start that
was already advanced by one period, not from the old start. Also, when
`now < start + period`, that `uint64_t` difference wraps. The model
follows the code. `Timer.RestartKeepsCadence` states the code's actual
condition for drift-free cadence, and `Timer.RestartBeforeExpiryFiresNextPoll`
shows the wrap.

The comment on the length field at `source/lib/can.h:29` says at most 7
bytes. CanTransmit clamps the length at `CAN_DATA_LEN_MAX`, which is 8
(`source/lib/can.h:17`), and the model follows the code.

The lemmas below are stated about these definitions:

- `Timer.Expired`: the expiry test of the polling scan (`source/lib/timer.c:366-369`).
- `Timer.RestartedStart`: the start time TimerRestart leaves behind (`source/lib/timer.c:301-306`).
- `Can.DrainedMessages`: the messages one drain of the receive queue delivers (`source/lib/can.c:376-421`).
- `Can.DrainedBuffer`: the receive buffer after that drain (`source/lib/can.c:369-409`).
- `Caplin.IdleTrace`: the calls of the idle loop for the given bursts (`source/lib/caplin.c:137-143`).
- `Caplin.MainTrace`: the calls of a whole run of main (`source/lib/caplin.c:87-164`).

## Model

| member | source | states |
|---|---|---|
| CTypes.Add64 | source/lib/timer.c:301 | `uint64_t` addition: the plain sum when it fits, else the sum minus 2^64 |
| CTypes.Sub64 | source/lib/timer.c:369 | `uint64_t` subtraction: the plain difference when `b <= a`, else the difference plus 2^64 |
| Util.MicrosToTimespec | source/lib/util.c:32-33 | the nanoseconds are normalised (below 10^9) and a whole number of microseconds; `sec` is the number of whole seconds in `micros` |
| Util.SleepRequest | source/lib/util.c:24-37 | no sleep exactly when `micros == 0`; otherwise a sleep for the converted duration |
| Util.SystemTime | source/lib/util.c:45-59 | 0 when the clock read fails; otherwise a value whose whole seconds are `tv_sec` and whose sub-second part is `tv_nsec / 1000` |
| Util.SleepRoundTrip | source/lib/util.c:54 | the clock formula applied to the sleep duration of `micros` gives `micros` back |
| Util.SystemTimeIgnoresSubMicros | source/lib/util.c:54 | two readings in the same second and the same microsecond give the same time |
| Util.SystemTimeMonotone | source/lib/util.c:54 | a later clock reading never gives a smaller time |
| Timer.TimerNode.constructor | source/lib/timer.c:170-174 | a new node holds its callback, is not running, and has start time 0 and period 0 |
| Timer.PeriodUs | source/lib/timer.c:273 | the stored period is `periodMs * 1000` when that fits in 32 bits, and wraps beyond |
| Timer.StartedTimerDueIff | source/lib/timer.c:369 | a timer is due at `start + period + eps` exactly when `eps > 0`: the comparison is strict |
| Timer.RestartNotDueAtSameInstant | source/lib/timer.c:301-308 | right after a restart at `now`, at most one period has elapsed, so a poll at `now` does not fire it |
| Timer.CatchUpElapsed | source/lib/timer.c:306 | the catch-up start `now - period` leaves exactly one period elapsed at `now` |
| Timer.RestartKeepsCadence | source/lib/timer.c:301-303 | if `now` is at most one period past the advanced start, the restart moves the start forward by exactly one period |
| Timer.RestartAfterOverrunFiresNextPoll | source/lib/timer.c:303-306 | after an overrun the new start is `now - period`, and the timer is due at every later poll |
| Timer.RestartBeforeExpiryFiresNextPoll | source/lib/timer.c:301-306 | restarting a timer with `now < start + period` makes the wrapped test see an overrun: the start becomes `now - period` instead of one period later, and the timer fires at the next poll |
| Timer.Without | source/lib/timer.c:217-242 | the unlinked list holds exactly the old nodes other than `t` |
| Timer.WithoutSplit | source/lib/timer.c:232-236 | unlinking the only occurrence of `t` reconnects the nodes before and after it |
| Timer.WithoutDistinct | source/lib/timer.c:214-244 | unlinking keeps handles distinct, removes exactly one node when `t` is listed, and changes nothing when it is not |
| Timer.DueTimers | source/lib/timer.c:363-390 | the fired timers are exactly the listed ones that are running and more than one period past their start |
| Timer.DueTimersKeepOrder | source/lib/timer.c:361-390 | two due timers are reported in their list order |
| Timer.StoppedTimersNeverDue | source/lib/timer.c:366 | a stopped timer is never fired |
| Timer.TimerTable.Init | source/lib/timer.c:69-90 | the list starts empty, and the worker flag is set exactly when the worker could be started |
| Timer.TimerTable.Terminate | source/lib/timer.c:98-138 | every node is released in list order, the list ends empty, and the worker flags are reset |
| Timer.TimerTable.Create | source/lib/timer.c:149-191 | with a callback and memory: a new idle node at the head, the old list after it in order; otherwise NULL and the list unchanged |
| Timer.TimerTable.Delete | source/lib/timer.c:199-248 | the list loses exactly `t`, head or interior, and keeps its order; a NULL or unlisted handle changes nothing; a node is released exactly when it was listed |
| Timer.TimerTable.Start | source/lib/timer.c:258-278 | on `t` only: start time `now`, period `periodMs * 1000` wrapped to 32 bits, running |
| Timer.TimerTable.Restart | source/lib/timer.c:287-312 | on `t` only: the start moves by one period, or to `now - period` after an overrun; the timer runs and keeps its period |
| Timer.TimerTable.Stop | source/lib/timer.c:320-337 | on `t` only: running cleared, everything else kept; the node stays listed |
| Timer.DueTimersDistinct | source/lib/timer.c:361-390 | on a list of distinct handles, each timer is fired at most once per scan |
| Timer.TimerTable.Poll | source/lib/timer.c:357-390 | one scan returns exactly the due timers, in list order, each at most once |
| Can.CanIdWord | source/lib/can.c:297-301 | the identifier bits are kept, and the extended flag is set when `ext` is set (or was already set in `id`) |
| Can.IdentifierBits | source/lib/can.c:406 | the extended flag is cleared and every other bit of the word is kept |
| Can.IdWordRoundTrip | source/lib/can.c:395-406 | identifier and flag survive the trip through `can_id` exactly when the identifier is below 2^29 |
| Can.WordIdRoundTrip | source/lib/can.c:297-301 | splitting a `can_id` word into identifier and flag and joining them again gives the word back |
| Can.Encode | source/lib/can.c:296-306 | same identifier bits; extended when `ext`; length clamped to 8; the first `dlc` bytes copied |
| Can.Decode | source/lib/can.c:392-411 | dropped exactly when RTR or ERR is set; otherwise flag from EFF, identifier with EFF cleared, length = DLC, first DLC bytes from the frame, the other bytes left over in the receive buffer, and the given timestamp |
| Can.EncodeDecodeRoundTrip | source/lib/can.c:296-306 | for a length of at most 8, decoding the encoded message is not dropped and gives back id, flag, length and data exactly when the id is below 2^29 |
| Can.DecodeEncodeRoundTrip | source/lib/can.c:392-411 | a delivered frame re-encodes to the same `can_id` word, DLC and data bytes |
| Can.DrainedMessagesMatchFrames | source/lib/can.c:376-421 | one drain delivers one message per accepted frame, in arrival order, each matching its frame |
| Can.CanDriver.Init | source/lib/can.c:91-114 | the callbacks are stored (either may be NULL); no socket, no worker, time origin 0, not connected |
| Can.CanDriver.Disconnect | source/lib/can.c:246-272 | not connected, no socket, origin 0, worker stopped; only a held socket is closed |
| Can.CanDriver.Terminate | source/lib/can.c:122-133 | a disconnect that also forgets both callbacks |
| Can.CanDriver.Connect | source/lib/can.c:144-239 | succeeds exactly with a device name and every system call succeeding; first disconnects and sets the time origin to `now`; `connected` is the result; the worker runs only on success; each failure after socket() closes it, and `canSocket` keeps the closed descriptor |
| Can.CanDriver.ConnectReleasingSocket | source/lib/can.c:172-231 | as Connect, except that a failed attempt leaves no socket behind |
| Can.CanDriver.Transmit | source/lib/can.c:281-332 | NULL or not connected: no write. Otherwise it writes the encoded frame and succeeds exactly when the whole frame is written. The transmitted callback follows only a success when one is registered, and gets the message with only its timestamp changed to `now - origin` |
| Can.DrainedBufferIsLastMessage | source/lib/can.c:369-409 | after a drain the receive buffer holds the data of the last delivered message, or its old content when nothing was delivered |
| Can.CanDriver.Drain | source/lib/can.c:376-421 | reads until the first failed read, and only then stops; the receive callback, when there is one, gets exactly the decoded messages of the accepted frames; the returned buffer is the one the next drain starts from |
| Can.DisconnectTwice | source/lib/can.c:261-271 | a second disconnect closes nothing and leaves the same state |
| Can.FailedConnectThenTerminate | source/lib/can.c:181-185 | descriptor 3 from socket(), a failing ioctl, then terminate: 3 is closed twice |
| Can.FailedConnectReleasingThenTerminate | source/lib/can.c:181-185 | the same run with the corrected connect closes 3 once |
| Caplin.App.constructor | source/lib/caplin.c:92 | the exit flag starts false |
| Caplin.App.KeyPressed | source/lib/caplin.c:332-346 | ESC sets the exit flag and calls nothing; any other key calls OnKey once and leaves the flag alone |
| Caplin.App.InterruptSignal | source/lib/caplin.c:355-359 | the exit flag is set |
| Caplin.App.Dispatch | source/lib/caplin.c:332-359 | the flag becomes set exactly when it was set or the stimulus requests the exit; it is never cleared |
| Caplin.App.DispatchAll | source/lib/caplin.c:332-359 | every stimulus of a burst reaches its handler in arrival order; the flag ends set exactly when it was set or some stimulus of the burst requests the exit |
| Caplin.App.RunningPhase | source/lib/caplin.c:124-150 | after a failed connect: the help text and the error message, with the exit flag unchanged; after a successful one: OnStart, the idle loop, OnStop and the disconnect, with the exit flag set |
| Caplin.App.IdleLoop | source/lib/caplin.c:137-143 | the loop leaves only with the flag set, and records exactly the idle trace of the bursts |
| Caplin.BurstExitsIff | source/lib/caplin.c:335-359 | a burst requests the exit exactly when one of its stimuli is ESC or the interrupt |
| Caplin.ReactionsOnlyKeys | source/lib/caplin.c:332-346 | a burst causes only OnKey calls, none of them with ESC |
| Caplin.ReactionsConcat | source/lib/caplin.c:332-346 | the calls caused by two bursts in a row are the calls of the first followed by those of the second |
| Caplin.KeysAroundEscapeForwarded | source/lib/caplin.c:335-345 | keys that arrive in the same sleep as an ESC, before or after it, still reach OnKey, and the burst requests the exit |
| Caplin.Run | source/lib/caplin.c:87-164 | returns EXIT_SUCCESS on every path, and its trace is the run's call sequence |
| Caplin.IdleTraceOnlySleepsAndKeys | source/lib/caplin.c:137-143 | the idle loop does nothing but sleep and forward keys other than ESC |
| Caplin.IdleLoopRunsUntilExit | source/lib/caplin.c:137-143 | the loop sleeps exactly once per burst before the first burst that requests the exit |
| Caplin.HelpReturnsBeforeInit | source/lib/caplin.c:101-107 | with help requested, no driver initialiser, hook or terminate runs |
| Caplin.SessionHooks | source/lib/caplin.c:124-150 | OnStart, OnStop and the disconnect happen exactly on a successful connect, and the connect error exactly on a failed one |
| Caplin.HooksFollowConnectResult | source/lib/caplin.c:124-160 | in a whole run, OnStart, OnStop and the disconnect happen exactly when connected; every initialiser, OnPostStop and the terminates always run |
| Caplin.SessionLifecycle | source/lib/caplin.c:124-150 | without the idle events, the running phase is OnStart, OnStop, disconnect, or the help and error message |
| Caplin.MainCallOrder | source/lib/caplin.c:110-160 | without the idle events, a run is exactly: interface lookup, argument parsing, TimerInit, KeysInit, CanInit, signal registration, OnPreStart, CanConnect, the running phase, OnPostStop, TimerTerminate, CanTerminate, KeysTerminate |
| Caplin.NoEscapeReachesOnKey | source/lib/caplin.c:335-345 | no OnKey call of any run carries ESC |

## Left out

- Threads, mutexes, atomics, thread join and the sleep cadence are not modelled. Each worker (timer polling, CAN event reception) is one sequential step, and the model has no interleaving.
- Timer.TimerTable.Poll: returns the due handles and does not run their callbacks inside the scan. A callback that deletes a node during the scan, which makes the source read freed memory, is therefore not modelled.
- System calls (socket, ioctl, fcntl, bind, thrd_create, read, write, close, thrd_sleep, timespec_get) are not executed. Their outcomes are inputs, and close() is recorded in `closeLog`. The result of fcntl(F_GETFL) has no effect on the outcome.
- Thread identifiers and the interface name copied into `struct ifreq` are not modelled.
- Can.Encode: the source leaves the frame bytes after the DLC uninitialised. The model fills them with zero. No modelled operation reads them.
- Can.Decode: the `Dlc` type assumes that a received `can_dlc` is at most 8. Linux guarantees this for classic CAN_RAW frames, but `source/lib/can.c:407-410` copies `can_dlc` bytes without checking it; a larger value would overrun `rxMsg.data`.
- Can.CanDriver.Drain: requires that some read fails eventually. With a queue that never empties, the source never leaves the inner loop.
- Util.SystemTime: requires `tv_sec` small enough for the signed 64-bit microsecond sum. Beyond that the source overflows, which is undefined behaviour in C.
- The `assert` on NULL parameters in the timer and CAN functions follows the build without assertions: a NULL argument takes the path the code has for it. That path changes nothing, except in CanConnect(NULL): it clears `canConnected` and keeps the socket and the event worker (`source/lib/can.c:155`, `source/lib/can.c:235`).
- The `memoryOk` input of Timer.TimerTable.Create stands for malloc's success.
- Caplin.Run: stimuli (keys, Ctrl+C) are delivered only in the idle loop's windows: one burst before the first flag test, and one burst during each sleep. A burst holds any number of stimuli, in order. In the source the key worker can also deliver a key outside these windows, at any time between KeysInit and KeysTerminate: before OnStart, or after the loop has left, during OnStop and the shutdown. Those keys are not modelled.
- Caplin.Run: requires that some burst requests the exit when the connect succeeds. Without an ESC or Ctrl+C, the source idles forever in the loop at `source/lib/caplin.c:137-143`, and a run has no final trace.
- Caplin.Run: argument parsing, interface discovery and the help text are not modelled. They appear in the trace only as single events, and the help flag and the connect result are inputs.
- `source/lib/keys.c` is not part of this model (raw terminal input). CanPrintMessage is not modelled (floating-point formatting and printf). The example applications and `source/canapp.c` are not modelled.

## Findings

| source | as written | input that shows it | evidently intended | confidence | as-written member | corrected member |
|---|---|---|---|---|---|---|
| source/lib/can.c:181-225 | A failing ioctl, fcntl(F_SETFL), bind or thrd_create closes the socket but leaves its descriptor in `canSocket`. The next CanDisconnect (`source/lib/can.c:261-264`), reached from CanTerminate, closes that descriptor again, and it may by then belong to another file. | socket() returns 3, ioctl(SIOCGIFINDEX) fails, then CanTerminate: close(3) is called twice | a failed connect leaves `canSocket == CAN_INVALID_SOCKET`, so the descriptor is closed once | medium, not executed | Can.FailedConnectThenTerminate | Can.FailedConnectReleasingThenTerminate |

/** The SocketCAN driver: the bit-level map between the runtime's CAN message
    (`tCanMsg`) and Linux's `struct can_frame`, and the connection state
    machine kept in the driver's module fields. Every system call (socket,
    ioctl, fcntl, bind, thrd_create, write, read) is an abstract input that
    either succeeds or fails; every call to close() is recorded. */
module Can {
  import opened CTypes

  /** Flag bits of `can_id` in linux/can.h. */
  const CAN_EFF_FLAG: bv32 := 0x8000_0000
  const CAN_RTR_FLAG: bv32 := 0x4000_0000
  const CAN_ERR_FLAG: bv32 := 0x2000_0000
  /** Smallest identifier that overlaps a flag bit (2^29). */
  const CAN_ID_LIMIT: bv32 := 0x2000_0000

  /** Maximum number of data bytes in a CAN message. */
  const CAN_DATA_LEN_MAX: int := 8
  /** Value of `canSocket` when no socket is held. */
  const CAN_INVALID_SOCKET: int := -1
  /** sizeof(struct can_frame). */
  const CAN_FRAME_SIZE: int := 16

  type Payload = s: seq<u8> | |s| == CAN_DATA_LEN_MAX witness [0, 0, 0, 0, 0, 0, 0, 0]

  /** A frame's data length code, 0 .. CAN_MAX_DLEN for a classic frame. */
  type Dlc = x: int | 0 <= x <= CAN_DATA_LEN_MAX

  /** Identity of a callback function. */
  type Callback = nat

  /** `tCanMsg`. */
  datatype CanMsg = CanMsg(id: bv32, ext: bool, len: u8, data: Payload, timestamp: u64)

  /** `struct can_frame`. */
  datatype CanFrame = CanFrame(canId: bv32, dlc: Dlc, data: Payload)

  function Zeros(n: nat): (r: seq<u8>)
    ensures |r| == n
  {
    seq(n, _ => 0)
  }

  // ---------------------------------------------------------------------------
  // The identifier word `can_id`
  // ---------------------------------------------------------------------------

  /** The `can_id` word CanTransmit builds: the identifier, with the
      extended-frame flag OR-ed in when `ext` is set. */
  function CanIdWord(id: bv32, ext: bool): (w: bv32)
    ensures w & !CAN_EFF_FLAG == id & !CAN_EFF_FLAG
    ensures w & CAN_EFF_FLAG != 0 <==> ext || id & CAN_EFF_FLAG != 0
  {
    if ext then id | CAN_EFF_FLAG else id
  }

  /** The identifier CanEventThread takes from a `can_id` word: everything
      but the extended-frame flag. */
  function IdentifierBits(w: bv32): (id: bv32)
    ensures id & CAN_EFF_FLAG == 0
    ensures id | (w & CAN_EFF_FLAG) == w
  {
    w & !CAN_EFF_FLAG
  }

  predicate IsExtended(w: bv32)
  {
    w & CAN_EFF_FLAG != 0
  }

  /** A remote request or an error frame, which the receiver drops. */
  predicate IsRemoteOrError(w: bv32)
  {
    w & (CAN_RTR_FLAG | CAN_ERR_FLAG) != 0
  }

  // One bit-level fact each; the round trips below combine them case by case.

  lemma SmallIdHasNoFlags(id: bv32)
    requires id < CAN_ID_LIMIT
    ensures id & CAN_EFF_FLAG == 0 && id & (CAN_RTR_FLAG | CAN_ERR_FLAG) == 0 && id & !CAN_EFF_FLAG == id
  {
  }

  lemma LargeIdHasAFlag(id: bv32)
    requires id >= CAN_ID_LIMIT && id & (CAN_RTR_FLAG | CAN_ERR_FLAG) == 0
    ensures id & CAN_EFF_FLAG != 0 && id & !CAN_EFF_FLAG != id
  {
  }

  lemma SetEffKeepsOtherBits(id: bv32)
    ensures (id | CAN_EFF_FLAG) & (CAN_RTR_FLAG | CAN_ERR_FLAG) == id & (CAN_RTR_FLAG | CAN_ERR_FLAG)
    ensures (id | CAN_EFF_FLAG) & CAN_EFF_FLAG != 0
    ensures id & CAN_EFF_FLAG == 0 ==> (id | CAN_EFF_FLAG) & !CAN_EFF_FLAG == id
  {
  }

  lemma ClearEffThenSet(w: bv32)
    requires w & CAN_EFF_FLAG != 0
    ensures (w & !CAN_EFF_FLAG) | CAN_EFF_FLAG == w
  {
  }

  lemma ClearEffWithoutEff(w: bv32)
    requires w & CAN_EFF_FLAG == 0
    ensures w & !CAN_EFF_FLAG == w
  {
  }

  /** Identifier and flag survive the trip through `can_id` exactly when the
      identifier fits in 29 bits. */
  lemma IdWordRoundTrip(id: bv32, ext: bool)
    ensures (!IsRemoteOrError(CanIdWord(id, ext)) && IdentifierBits(CanIdWord(id, ext)) == id
             && IsExtended(CanIdWord(id, ext)) == ext)
            <==> id < CAN_ID_LIMIT
  {
    if ext {
      var w := id | CAN_EFF_FLAG;
      assert CanIdWord(id, ext) == w;
      SetEffKeepsOtherBits(id);
      if id < CAN_ID_LIMIT {
        SmallIdHasNoFlags(id);
      } else if id & (CAN_RTR_FLAG | CAN_ERR_FLAG) == 0 {
        LargeIdHasAFlag(id);
        ClearEffOfSetEff(id);
      }
    } else {
      assert CanIdWord(id, ext) == id;
      if id < CAN_ID_LIMIT {
        SmallIdHasNoFlags(id);
      } else if id & (CAN_RTR_FLAG | CAN_ERR_FLAG) == 0 {
        LargeIdHasAFlag(id);
      }
    }
  }

  lemma ClearEffOfSetEff(id: bv32)
    requires id & CAN_EFF_FLAG != 0
    ensures (id | CAN_EFF_FLAG) & !CAN_EFF_FLAG == id & !CAN_EFF_FLAG
    ensures id & !CAN_EFF_FLAG != id
  {
  }

  /** Splitting a `can_id` word into identifier and flag and joining them
      again gives the word back. */
  lemma WordIdRoundTrip(w: bv32)
    ensures CanIdWord(IdentifierBits(w), IsExtended(w)) == w
  {
    if IsExtended(w) {
      ClearEffThenSet(w);
    } else {
      ClearEffWithoutEff(w);
    }
  }

  // ---------------------------------------------------------------------------
  // Frames
  // ---------------------------------------------------------------------------

  /** The frame CanTransmit writes for `m`: the length clamped to 8 and the
      first `dlc` data bytes copied. The bytes after those are left
      uninitialised by the source; here they are zero. */
  function Encode(m: CanMsg): (f: CanFrame)
    ensures IdentifierBits(f.canId) == IdentifierBits(m.id)
    ensures IsExtended(f.canId) <==> m.ext || IsExtended(m.id)
    ensures m.len <= CAN_DATA_LEN_MAX ==> f.dlc == m.len
    ensures m.len > CAN_DATA_LEN_MAX ==> f.dlc == CAN_DATA_LEN_MAX
    ensures f.data[..f.dlc] == m.data[..f.dlc]
  {
    var dlc := if m.len <= CAN_DATA_LEN_MAX then m.len else CAN_DATA_LEN_MAX;
    CanFrame(CanIdWord(m.id, m.ext), dlc, m.data[..dlc] + Zeros(CAN_DATA_LEN_MAX - dlc))
  }

  /** The message CanEventThread hands to the receive callback for frame `f`,
      or None when the frame is a remote request or error frame. `prev` holds
      the bytes left in the reused receive buffer, which survive beyond the
      frame's length. */
  function Decode(f: CanFrame, timestamp: u64, prev: Payload): (r: Option<CanMsg>)
    ensures r.None? <==> IsRemoteOrError(f.canId)
    ensures r.Some? ==> r.value.ext == IsExtended(f.canId) && r.value.id == IdentifierBits(f.canId)
    ensures r.Some? ==> r.value.len == f.dlc && r.value.timestamp == timestamp
    ensures r.Some? ==> r.value.data[..f.dlc] == f.data[..f.dlc] && r.value.data[f.dlc..] == prev[f.dlc..]
  {
    if IsRemoteOrError(f.canId) then None
    else Some(CanMsg(IdentifierBits(f.canId), IsExtended(f.canId), f.dlc, f.data[..f.dlc] + prev[f.dlc..], timestamp))
  }

  /** Round trip from the message side: decoding the encoded message gives
      back identifier, extended flag, length and data exactly when the
      identifier fits in 29 bits (for a length the encoder does not clamp). */
  lemma EncodeDecodeRoundTrip(m: CanMsg, timestamp: u64, prev: Payload)
    requires m.len <= CAN_DATA_LEN_MAX
    ensures var r := Decode(Encode(m), timestamp, prev);
      (r.Some? && r.value.id == m.id && r.value.ext == m.ext && r.value.len == m.len
       && r.value.data[..m.len] == m.data[..m.len])
      <==> m.id < CAN_ID_LIMIT
  {
    IdWordRoundTrip(m.id, m.ext);
  }

  /** Round trip from the wire side: a frame that is delivered re-encodes to
      the same identifier word, length and data bytes. */
  lemma DecodeEncodeRoundTrip(f: CanFrame, timestamp: u64, prev: Payload)
    requires Decode(f, timestamp, prev).Some?
    ensures var e := Encode(Decode(f, timestamp, prev).value);
      e.canId == f.canId && e.dlc == f.dlc && e.data[..f.dlc] == f.data[..f.dlc]
  {
    var m := Decode(f, timestamp, prev).value;
    DecodedWordReencodes(f.canId, m);
    DecodedPayloadReencodes(f, m);
  }

  lemma DecodedWordReencodes(w: bv32, m: CanMsg)
    requires m.id == IdentifierBits(w) && m.ext == IsExtended(w)
    ensures Encode(m).canId == w
  {
    assert Encode(m).canId == CanIdWord(m.id, m.ext);
    WordIdRoundTrip(w);
  }

  lemma DecodedPayloadReencodes(f: CanFrame, m: CanMsg)
    requires m.len == f.dlc && m.data[..f.dlc] == f.data[..f.dlc]
    ensures Encode(m).dlc == f.dlc && Encode(m).data[..f.dlc] == f.data[..f.dlc]
  {
  }

  /** The outcome of one read() on the non-blocking socket: a full frame
      (with the clock reading taken for its timestamp), or anything else. */
  datatype ReadResult = Received(frame: CanFrame, now: u64) | NoFrame

  /** The messages one drain of the receive queue decodes: it reads until
      the first failed read and skips remote request and error frames. */
  function DrainedMessages(results: seq<ReadResult>, origin: u64, prev: Payload): (r: seq<CanMsg>)
  {
    if results == [] || results[0].NoFrame? then []
    else
      match Decode(results[0].frame, Sub64(results[0].now, origin), prev)
      case Some(m) => [m] + DrainedMessages(results[1..], origin, m.data)
      case None => DrainedMessages(results[1..], origin, prev)
  }

  /** The receive buffer after one drain: Decode rewrites it for every
      accepted frame, and a failed read leaves it as it is. */
  function DrainedBuffer(results: seq<ReadResult>, origin: u64, prev: Payload): (r: Payload)
  {
    if results == [] || results[0].NoFrame? then prev
    else
      match Decode(results[0].frame, Sub64(results[0].now, origin), prev)
      case Some(m) => DrainedBuffer(results[1..], origin, m.data)
      case None => DrainedBuffer(results[1..], origin, prev)
  }

  /** The buffer a drain leaves behind holds the last delivered message's
      data, or the old content when the drain delivered nothing. */
  lemma {:induction false} DrainedBufferIsLastMessage(results: seq<ReadResult>, origin: u64, prev: Payload)
    ensures DrainedMessages(results, origin, prev) == [] ==> DrainedBuffer(results, origin, prev) == prev
    ensures DrainedMessages(results, origin, prev) != [] ==>
      var msgs := DrainedMessages(results, origin, prev);
      DrainedBuffer(results, origin, prev) == msgs[|msgs| - 1].data
  {
    if results != [] && results[0].Received? {
      match Decode(results[0].frame, Sub64(results[0].now, origin), prev)
      case Some(m) => DrainedBufferIsLastMessage(results[1..], origin, m.data);
      case None => DrainedBufferIsLastMessage(results[1..], origin, prev);
    }
  }

  /** Frames received before the first failed read that are neither remote
      request nor error frames. */
  function AcceptedFrames(results: seq<ReadResult>): (r: seq<CanFrame>)
  {
    if results == [] || results[0].NoFrame? then []
    else if IsRemoteOrError(results[0].frame.canId) then AcceptedFrames(results[1..])
    else [results[0].frame] + AcceptedFrames(results[1..])
  }

  /** The drain from read `c` on: nothing after a failed read, otherwise
      the decoded message (if any) followed by the drain from `c + 1`. */
  lemma DrainStep(results: seq<ReadResult>, c: nat, origin: u64, data: Payload)
    requires c < |results|
    ensures results[c].NoFrame? ==> DrainedMessages(results[c..], origin, data) == []
    ensures results[c].Received? ==>
      var msg := Decode(results[c].frame, Sub64(results[c].now, origin), data);
      DrainedMessages(results[c..], origin, data) ==
        if msg.Some? then [msg.value] + DrainedMessages(results[c + 1..], origin, msg.value.data)
        else DrainedMessages(results[c + 1..], origin, data)
    ensures results[c].NoFrame? ==> DrainedBuffer(results[c..], origin, data) == data
    ensures results[c].Received? ==>
      var msg := Decode(results[c].frame, Sub64(results[c].now, origin), data);
      DrainedBuffer(results[c..], origin, data) ==
        DrainedBuffer(results[c + 1..], origin, if msg.Some? then msg.value.data else data)
  {
    assert results[c..][0] == results[c];
    assert results[c..][1..] == results[c + 1..];
  }

  /** A drain delivers one message per accepted frame, in arrival order, each
      carrying that frame's identifier bits, flag, length and data. */
  lemma {:induction false} DrainedMessagesMatchFrames(results: seq<ReadResult>, origin: u64, prev: Payload)
    ensures |DrainedMessages(results, origin, prev)| == |AcceptedFrames(results)|
    ensures forall k :: 0 <= k < |AcceptedFrames(results)| ==>
      var m, f := DrainedMessages(results, origin, prev)[k], AcceptedFrames(results)[k];
      m.ext == IsExtended(f.canId) && m.id == IdentifierBits(f.canId)
      && m.len == f.dlc && m.data[..f.dlc] == f.data[..f.dlc]
  {
    if results != [] && results[0].Received? {
      var r := Decode(results[0].frame, Sub64(results[0].now, origin), prev);
      match r
      case Some(m) => DrainedMessagesMatchFrames(results[1..], origin, m.data);
      case None => DrainedMessagesMatchFrames(results[1..], origin, prev);
    }
  }

  /** What the connect sequence's system calls return: the descriptor from
      socket() (None when it fails), and whether ioctl(SIOCGIFINDEX),
      fcntl(F_SETFL), bind() and thrd_create() succeed. The result of
      fcntl(F_GETFL) does not influence the outcome. */
  datatype ConnectEnv = ConnectEnv(socket: Option<nat>, ioctlOk: bool, setFlagsOk: bool, bindOk: bool, threadOk: bool)

  predicate AllStepsSucceed(env: ConnectEnv)
  {
    env.socket.Some? && env.ioctlOk && env.setFlagsOk && env.bindOk && env.threadOk
  }

  /** The value socket() leaves in `canSocket`. */
  function SocketValue(env: ConnectEnv): (r: int)
  {
    if env.socket.Some? then env.socket.value else CAN_INVALID_SOCKET
  }

  /** The close() calls Disconnect makes for the socket value it finds. */
  function ClosesOf(socket: int): (r: seq<int>)
  {
    if socket != CAN_INVALID_SOCKET then [socket] else []
  }

  /** The driver's module state. */
  class CanDriver {
    var receivedCallback: Option<Callback>
    var transmittedCallback: Option<Callback>
    var socket: int
    var eventThreadRunning: bool
    var stopEventThread: bool
    var startTime: u64
    var connected: bool
    /** Every descriptor passed to close(), in call order. */
    var closeLog: seq<int>

    /** CanInit: registers the callbacks (either may be NULL); not connected. */
    constructor Init(rx: Option<Callback>, tx: Option<Callback>)
      ensures receivedCallback == rx && transmittedCallback == tx
      ensures socket == CAN_INVALID_SOCKET && !eventThreadRunning && !stopEventThread
      ensures startTime == 0 && !connected && closeLog == []
    {
      receivedCallback, transmittedCallback := rx, tx;
      socket := CAN_INVALID_SOCKET;
      eventThreadRunning, stopEventThread := false, false;
      startTime := 0;
      connected := false;
      closeLog := [];
    }

    method Close(fd: int)
      modifies this`closeLog
      ensures closeLog == old(closeLog) + [fd]
    {
      closeLog := closeLog + [fd];
    }

    /** CanDisconnect: stops the event worker, closes a held socket and
        resets the connection state. Calling it again closes nothing. */
    method Disconnect()
      modifies this
      ensures !connected && socket == CAN_INVALID_SOCKET && startTime == 0
      ensures !eventThreadRunning && !stopEventThread
      ensures closeLog == old(closeLog) + ClosesOf(old(socket))
      ensures receivedCallback == old(receivedCallback) && transmittedCallback == old(transmittedCallback)
    {
      connected := false;
      if eventThreadRunning {
        stopEventThread := true;
      }
      if socket != CAN_INVALID_SOCKET {
        Close(socket);
      }
      startTime := 0;
      stopEventThread := false;
      eventThreadRunning := false;
      socket := CAN_INVALID_SOCKET;
    }

    /** CanTerminate: disconnects and forgets both callbacks. */
    method Terminate()
      modifies this
      ensures !connected && socket == CAN_INVALID_SOCKET && startTime == 0
      ensures !eventThreadRunning && !stopEventThread
      ensures closeLog == old(closeLog) + ClosesOf(old(socket))
      ensures receivedCallback.None? && transmittedCallback.None?
    {
      Disconnect();
      transmittedCallback := None;
      receivedCallback := None;
    }

    /** CanConnect: with a device name, a full disconnect, the time origin
        set to `now`, then socket, interface index, non-blocking mode, bind
        and worker start; a failing step closes the socket and ends the
        attempt. Without a device name only the connected flag is cleared. */
    method Connect(device: Option<string>, now: u64, env: ConnectEnv) returns (ok: bool)
      modifies this
      ensures ok <==> device.Some? && AllStepsSucceed(env)
      ensures connected == ok
      ensures device.Some? ==> startTime == now && !stopEventThread && socket == SocketValue(env)
      ensures device.Some? ==> eventThreadRunning == ok
      ensures device.Some? ==> closeLog == old(closeLog) + ClosesOf(old(socket))
                                              + (if env.socket.Some? && !ok then [env.socket.value] else [])
      ensures device.None? ==> socket == old(socket) && eventThreadRunning == old(eventThreadRunning)
                               && stopEventThread == old(stopEventThread) && startTime == old(startTime)
                               && closeLog == old(closeLog)
      ensures receivedCallback == old(receivedCallback) && transmittedCallback == old(transmittedCallback)
    {
      ok := false;
      if device.Some? {
        ok := true;
        Disconnect();
        startTime := now;
        socket := SocketValue(env);
        if socket < 0 {
          ok := false;
        }
        if ok {
          if !env.ioctlOk {
            Close(socket);
            ok := false;
          }
        }
        if ok {
          if !env.setFlagsOk {
            Close(socket);
            ok := false;
          }
        }
        if ok {
          if !env.bindOk {
            Close(socket);
            ok := false;
          }
        }
        if ok {
          if !env.threadOk {
            Close(socket);
            ok := false;
          } else {
            eventThreadRunning := true;
          }
        }
      }
      connected := ok;
    }

    /** CanConnect as evidently intended: identical, except that a failing
        step also gives up the closed descriptor, so a failed connect leaves
        no socket behind for a later Disconnect to close again. */
    method ConnectReleasingSocket(device: Option<string>, now: u64, env: ConnectEnv) returns (ok: bool)
      modifies this
      ensures ok <==> device.Some? && AllStepsSucceed(env)
      ensures connected == ok
      ensures device.Some? ==> startTime == now && !stopEventThread && eventThreadRunning == ok
      ensures device.Some? ==> socket == if ok then env.socket.value else CAN_INVALID_SOCKET
      ensures device.Some? ==> closeLog == old(closeLog) + ClosesOf(old(socket))
                                              + (if env.socket.Some? && !ok then [env.socket.value] else [])
      ensures device.None? ==> socket == old(socket) && eventThreadRunning == old(eventThreadRunning)
                               && stopEventThread == old(stopEventThread) && startTime == old(startTime)
                               && closeLog == old(closeLog)
      ensures receivedCallback == old(receivedCallback) && transmittedCallback == old(transmittedCallback)
    {
      ok := false;
      if device.Some? {
        ok := true;
        Disconnect();
        startTime := now;
        socket := SocketValue(env);
        if socket < 0 {
          ok := false;
        }
        if ok && !env.ioctlOk {
          Close(socket);
          socket := CAN_INVALID_SOCKET;
          ok := false;
        }
        if ok && !env.setFlagsOk {
          Close(socket);
          socket := CAN_INVALID_SOCKET;
          ok := false;
        }
        if ok && !env.bindOk {
          Close(socket);
          socket := CAN_INVALID_SOCKET;
          ok := false;
        }
        if ok {
          if !env.threadOk {
            Close(socket);
            socket := CAN_INVALID_SOCKET;
            ok := false;
          } else {
            eventThreadRunning := true;
          }
        }
      }
      connected := ok;
    }

    /** CanTransmit: `now` is the clock reading for the timestamp and
        `writeResult` what write() returns. Returns whether the frame was
        written, the frame handed to write(), and the message passed to the
        transmitted callback. */
    method Transmit(msg: Option<CanMsg>, now: u64, writeResult: int)
      returns (ok: bool, written: Option<CanFrame>, notified: Option<CanMsg>)
      ensures msg.None? || !connected ==> written.None?
      ensures msg.Some? && connected ==> written == Some(Encode(msg.value))
      ensures ok <==> msg.Some? && connected && writeResult == CAN_FRAME_SIZE
      ensures notified.Some? <==> ok && transmittedCallback.Some?
      ensures notified.Some? ==> notified.value == msg.value.(timestamp := Sub64(now, startTime))
    {
      ok, written, notified := false, None, None;
      if msg.Some? && connected {
        var txMsg := msg.value;
        var frame := Encode(msg.value);
        txMsg := txMsg.(timestamp := Sub64(now, startTime));
        written := Some(frame);
        if writeResult == CAN_FRAME_SIZE {
          ok := true;
        }
        if ok {
          if transmittedCallback.Some? {
            notified := Some(txMsg);
          }
        }
      }
    }

    /** One drain of the receive queue by the event worker: results until a
        read fails (the queue is empty), decoding and delivering each frame
        to the receive callback, if there is one. `prev` is the content of
        the receive buffer before the drain, and `buffer` its content after
        it, which the next drain starts from. */
    method Drain(results: seq<ReadResult>, prev: Payload) returns (consumed: nat, delivered: seq<CanMsg>, buffer: Payload)
      requires NoFrame in results
      ensures 0 < consumed <= |results| && results[consumed - 1] == NoFrame
      ensures forall i :: 0 <= i < consumed - 1 ==> results[i].Received?
      ensures delivered == if receivedCallback.Some? then DrainedMessages(results, startTime, prev) else []
      ensures buffer == DrainedBuffer(results, startTime, prev)
    {
      consumed, delivered := 0, [];
      ghost var emptyAt :| 0 <= emptyAt < |results| && results[emptyAt] == NoFrame;
      ghost var allMessages := DrainedMessages(results, startTime, prev);
      ghost var lastBuffer := DrainedBuffer(results, startTime, prev);
      var data := prev;
      var received := true;
      while received
        invariant 0 <= consumed <= |results|
        invariant forall i :: 0 <= i < consumed && (received || i < consumed - 1) ==> results[i].Received?
        invariant received ==> consumed <= emptyAt
        invariant !received ==> 0 < consumed && results[consumed - 1] == NoFrame
        invariant receivedCallback.None? ==> delivered == []
        invariant receivedCallback.Some? && received ==>
          delivered + DrainedMessages(results[consumed..], startTime, data) == allMessages
        invariant receivedCallback.Some? && !received ==> delivered == allMessages
        invariant received ==> DrainedBuffer(results[consumed..], startTime, data) == lastBuffer
        invariant !received ==> data == lastBuffer
        decreases |results| - consumed + (if received then 1 else 0)
      {
        var r := results[consumed];
        DrainStep(results, consumed, startTime, data);
        consumed := consumed + 1;
        received := r.Received?;
        if received {
          var msg := Decode(r.frame, Sub64(r.now, startTime), data);
          if msg.Some? {
            data := msg.value.data;
            if receivedCallback.Some? {
              ConcatAssoc(delivered, [msg.value], DrainedMessages(results[consumed..], startTime, data));
              delivered := delivered + [msg.value];
            }
          }
        } else {
          assert delivered + [] == delivered;
        }
      }
      buffer := data;
    }
  }

  /** Disconnecting twice: the second call finds no socket to close and
      leaves the same disconnected state as the first. */
  method DisconnectTwice(d: CanDriver)
    modifies d
    ensures !d.connected && d.socket == CAN_INVALID_SOCKET && d.startTime == 0
    ensures !d.eventThreadRunning && !d.stopEventThread
    ensures d.closeLog == old(d.closeLog) + ClosesOf(old(d.socket))
  {
    d.Disconnect();
    d.Disconnect();
  }

  /** The source's connect failure path with an interface that does not
      exist: socket() gives descriptor 3, ioctl(SIOCGIFINDEX) fails, and the
      orchestrator then terminates the driver. Descriptor 3 is closed twice. */
  method FailedConnectThenTerminate() returns (closes: seq<int>)
    ensures closes == [3, 3]
  {
    var d := new CanDriver.Init(None, None);
    var ok := d.Connect(Some("vcan0"), 1000, ConnectEnv(Some(3), false, true, true, true));
    assert !ok && d.socket == 3;
    d.Terminate();
    closes := d.closeLog;
  }

  /** The same run with the corrected connect: descriptor 3 is closed once. */
  method FailedConnectReleasingThenTerminate() returns (closes: seq<int>)
    ensures closes == [3]
  {
    var d := new CanDriver.Init(None, None);
    var ok := d.ConnectReleasingSocket(Some("vcan0"), 1000, ConnectEnv(Some(3), false, true, true, true));
    assert !ok && d.socket == CAN_INVALID_SOCKET;
    d.Terminate();
    closes := d.closeLog;
  }
}

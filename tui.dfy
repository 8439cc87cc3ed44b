/**
 * The loopback test's model object: an open port, the counters, the quitting
 * flag and the packet target, updated in place by the test iteration and by
 * the message dispatcher, and the loop that drives iterations until one does
 * not ask for another.
 */
module Tui {
  import opened Wrappers
  import opened Packets
  import opened Transport
  import opened Loopback

  /** Commands Update hands back to the runtime. */
  datatype Cmd = NoCmd | Quit | RunSerialTest

  predicate IsQuitKey(key: string) { key == "ctrl+c" || key == "q" }

  class SerialModel {
    const port: string
    const baudRate: int
    var portConn: Port?
    var bytesSent: int
    var bytesRecv: int
    var packetsSent: int
    var packetsRecv: int
    var packetsLost: int
    var packetsErr: int
    var isQuitting: bool
    const maxPackets: int
    /** The content hash (SHA-256 rendered as hex), an opaque deterministic function. */
    const hash: Bytes -> Digest

    /** The counters as a value. */
    function Snapshot(): Stats
      reads this
    {
      Stats(bytesSent, bytesRecv, packetsSent, packetsRecv, packetsLost, packetsErr)
    }

    ghost predicate Valid()
      reads this
    {
      Consistent(Snapshot())
    }

    constructor (port: string, baudRate: int, portConn: Port, count: int, hash: Bytes -> Digest)
      ensures Valid() && Snapshot() == Zero && !isQuitting
      ensures this.port == port && this.baudRate == baudRate && this.portConn == portConn
      ensures maxPackets == count && this.hash == hash
    {
      this.port := port;
      this.baudRate := baudRate;
      this.portConn := portConn;
      bytesSent, bytesRecv := 0, 0;
      packetsSent, packetsRecv, packetsLost, packetsErr := 0, 0, 0, 0;
      isQuitting := false;
      maxPackets := count;
      this.hash := hash;
    }

    /**
     * One test iteration. The counters and the message it returns are those of
     * Step on the transport's answers `io`; it writes exactly the packet
     * numbered packetsSent + 1 and sets isQuitting when it finishes the run.
     */
    method SerialTest() returns (msg: Msg, ghost io: Io)
      requires Valid() && portConn != null
      modifies this, portConn
      ensures portConn == old(portConn) && portConn.open == old(portConn.open)
      ensures State(Snapshot(), msg) == Step(old(Snapshot()), maxPackets, hash, io)
      ensures portConn.written == old(portConn.written) + [Payload(old(packetsSent) + 1)]
      ensures io.write.Wrote? ==> io.write.n <= |Payload(old(packetsSent) + 1)|
      ensures io.read.ReadBack? ==> |io.read.data| <= ReadBufferSize
      // on a closed port the iteration is a write error and nothing changes
      ensures !old(portConn.open) ==> io.write.WriteFailed? && msg == ErrorMsg(WriteError)
      ensures isQuitting == (old(isQuitting) || msg == SerialTestResult)
      ensures Valid()
    {
      var testData := Payload(packetsSent + 1);
      var w := portConn.Write(testData);
      if w.WriteFailed? {
        msg, io := ErrorMsg(WriteError), Io(w, ReadFailed);
        return;
      }
      bytesSent := bytesSent + w.n;
      packetsSent := packetsSent + 1;
      var sentHash := hash(testData);

      var r := portConn.Read(ReadBufferSize);
      if r.ReadFailed? {
        msg, io := ErrorMsg(ReadError), Io(w, r);
        return;
      }
      bytesRecv := bytesRecv + |r.data|;
      packetsRecv := packetsRecv + 1;
      var recvHash := hash(r.data);

      if sentHash != recvHash {
        packetsErr := packetsErr + 1;
      }
      if packetsSent > packetsRecv {
        packetsLost := packetsSent - packetsRecv;
      }
      io := Io(w, r);

      if packetsSent >= maxPackets {
        isQuitting := true;
        msg := SerialTestResult;
        return;
      }
      msg := SerialTestMsg;
    }

    /**
     * The message dispatcher. A quit key sets isQuitting, closes the port if
     * there is one and quits; a continuation schedules the next iteration; the
     * finish message quits; an error schedules nothing and is reported unless
     * the model is already quitting; anything else is ignored.
     */
    method Update(msg: Msg) returns (cmd: Cmd, reported: Option<SerialError>)
      requires Valid()
      modifies this, portConn
      ensures portConn == old(portConn) && Snapshot() == old(Snapshot())
      ensures portConn != null ==> portConn.written == old(portConn.written)
      ensures msg.KeyPress? && IsQuitKey(msg.key) ==>
        isQuitting && cmd == Quit && (portConn != null ==> !portConn.open)
      ensures !(msg.KeyPress? && IsQuitKey(msg.key)) ==>
        isQuitting == old(isQuitting) && (portConn != null ==> portConn.open == old(portConn.open))
      ensures cmd == RunSerialTest <==> msg == SerialTestMsg
      ensures cmd == Quit <==> msg == SerialTestResult || (msg.KeyPress? && IsQuitKey(msg.key))
      ensures reported == if msg.ErrorMsg? && !old(isQuitting) then Some(msg.err) else None
      ensures Valid()
    {
      reported := None;
      match msg
      case KeyPress(key) =>
        if IsQuitKey(key) {
          isQuitting := true;
          if portConn != null {
            portConn.Close();
          }
          return Quit, None;
        }
        cmd := NoCmd;
      case SerialTestMsg =>
        cmd := RunSerialTest;
      case SerialTestResult =>
        cmd := Quit;
      case ErrorMsg(err) =>
        if !isQuitting {
          reported := Some(err);
        }
        cmd := NoCmd;
      case OtherMsg =>
        cmd := NoCmd;
    }

    /** RunFacts of this model's counters and its port's write log. */
    ghost predicate Tracks(start: Stats, written0: seq<Bytes>, trace: seq<Io>, last: Msg)
      reads this, portConn
    {
      portConn != null &&
      RunFacts(start, maxPackets, hash, written0, trace, last, Snapshot(), portConn.written)
    }

    /** One iteration of a run that asked for it, keeping track of the run. */
    method Iterate(ghost start: Stats, ghost written0: seq<Bytes>, ghost trace: seq<Io>)
      returns (msg: Msg, ghost io: Io)
      requires Tracks(start, written0, trace, SerialTestMsg)
      modifies this, portConn
      ensures portConn == old(portConn) && portConn.open == old(portConn.open)
      ensures Tracks(start, written0, trace + [io], msg)
      ensures isQuitting == (old(isQuitting) || msg == SerialTestResult)
      ensures packetsSent >= old(packetsSent)
      ensures msg == SerialTestMsg ==> packetsSent == old(packetsSent) + 1 < maxPackets
    {
      ghost var s, written := Snapshot(), portConn.written;
      msg, io := SerialTest();
      RunFactsNext(start, maxPackets, hash, written0, trace, s, written, io);
    }

    /**
     * Runs the test from Init on: an iteration is pending at the start, and each
     * iteration's message goes through Update until it schedules no further
     * iteration. `trace` holds the transport's answers, one per iteration; the
     * counters and the last message are those of Chain over it.
     */
    method Run() returns (last: Msg, reported: Option<SerialError>, ghost trace: seq<Io>)
      requires Valid() && portConn != null
      modifies this, portConn
      ensures Valid() && portConn == old(portConn) && portConn.open == old(portConn.open)
      ensures |trace| > 0 && last != SerialTestMsg
      ensures State(Snapshot(), last) == Chain(old(Snapshot()), maxPackets, hash, trace)
      ensures Chain(old(Snapshot()), maxPackets, hash, trace[..|trace| - 1]).msg == SerialTestMsg
      ensures portConn.written == old(portConn.written) + Payloads(old(packetsSent), |trace|)
      ensures |trace| <= Max(1, maxPackets - old(packetsSent))
      ensures ErrorFree(trace) ==> |trace| == Max(1, maxPackets - old(packetsSent)) && last == SerialTestResult
      ensures bytesSent - old(bytesSent) <= TotalLength(Payloads(old(packetsSent), |trace|))
      ensures bytesRecv - old(bytesRecv) <= ReadBufferSize * (packetsRecv - old(packetsRecv))
      ensures isQuitting == (old(isQuitting) || last == SerialTestResult)
      ensures reported == if last.ErrorMsg? && !old(isQuitting) then Some(last.err) else None
    {
      ghost var start := Snapshot();
      ghost var conn := portConn;
      ghost var written0 := portConn.written;
      var cmd := RunSerialTest;
      last, reported, trace := SerialTestMsg, None, [];
      while cmd == RunSerialTest
        invariant portConn == conn && portConn.open == old(portConn.open)
        invariant cmd == RunSerialTest <==> last == SerialTestMsg
        invariant Tracks(start, written0, trace, last)
        invariant isQuitting == (old(isQuitting) || last == SerialTestResult)
        invariant reported == if last.ErrorMsg? && !old(isQuitting) then Some(last.err) else None
        decreases (if cmd == RunSerialTest then 1 else 0) + Max(0, maxPackets - packetsSent)
      {
        var msg;
        ghost var io;
        msg, io := Iterate(start, written0, trace);
        trace := trace + [io];
        cmd, reported := Update(msg);
        last := msg;
      }
      WritesBounded(start, maxPackets, hash, trace);
      if ErrorFree(trace) {
        ErrorFreeRunLength(start, maxPackets, hash, trace);
      }
    }
  }

  /**
   * Quitting while the test is running: the quit key closes the port, so the
   * iteration that was still under way fails on its write, changes no counter,
   * and its error is not reported.
   */
  method QuitDuringTest(m: SerialModel) returns (quit: Cmd, msg: Msg, reported: Option<SerialError>)
    requires m.Valid() && m.portConn != null
    modifies m, m.portConn
    ensures m.portConn == old(m.portConn) && m.portConn != null
    ensures quit == Quit && m.isQuitting && !m.portConn.open
    ensures msg == ErrorMsg(WriteError) && reported == None
    ensures m.Snapshot() == old(m.Snapshot()) && m.Valid()
  {
    var ignored;
    quit, ignored := m.Update(KeyPress("q"));
    ghost var io;
    msg, io := m.SerialTest();
    var next;
    next, reported := m.Update(msg);
  }

  /**
   * Opens the port and builds a model with zeroed counters, not quitting and
   * `count` as its packet target; a failed open is an error and no model (so
   * no iteration) comes of it.
   */
  method NewSerialModel(port: string, baudRate: int, count: int, hash: Bytes -> Digest)
    returns (r: Result<SerialModel, SerialError>)
    ensures r.Failure? ==> r.error == OpenError
    ensures r.Success? ==>
      fresh(r.value) && fresh(r.value.portConn) && r.value.Valid() &&
      r.value.Snapshot() == Zero && !r.value.isQuitting && r.value.maxPackets == count &&
      r.value.port == port && r.value.baudRate == baudRate && r.value.hash == hash &&
      r.value.portConn != null && r.value.portConn.open && r.value.portConn.written == []
  {
    var conn := Open(port, baudRate);
    if conn.None? {
      return Failure(OpenError);
    }
    var m := new SerialModel(port, baudRate, conn.value, count, hash);
    return Success(m);
  }
}

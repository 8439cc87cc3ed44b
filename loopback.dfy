/**
 * The round-trip loopback engine as values: the counters of a test run, one
 * iteration of the test (write a numbered packet, read the echo, compare
 * digests, update the counters, decide whether to go on), and a run as the
 * sequence of iterations driven by the transport's outcomes.
 */
module Loopback {
  import opened Packets
  import opened Transport

  /** Size of the buffer each iteration reads the echo into. */
  const ReadBufferSize := 256

  /** The counters of a SerialModel. */
  datatype Stats = Stats(
    bytesSent: int,
    bytesRecv: int,
    packetsSent: int,
    packetsRecv: int,
    packetsLost: int,
    packetsErr: int)

  /** Counters of a freshly opened model. */
  const Zero := Stats(0, 0, 0, 0, 0, 0)

  /** What every reachable set of counters satisfies. */
  predicate Consistent(s: Stats)
  {
    0 <= s.bytesSent && 0 <= s.bytesRecv &&
    0 <= s.packetsRecv <= s.packetsSent &&
    0 <= s.packetsErr <= s.packetsRecv &&
    0 <= s.packetsLost
  }

  /** Errors surfaced as messages: a failed open, a failed write, a failed read. */
  datatype SerialError = OpenError | WriteError | ReadError

  /** The messages the model's Update receives. */
  datatype Msg =
    | KeyPress(key: string)
    | SerialTestMsg           // another iteration is requested
    | SerialTestResult        // the requested number of packets has been sent
    | ErrorMsg(err: SerialError)
    | OtherMsg

  /** The transport's answers during one iteration: the write's, then the read's. */
  datatype Io = Io(write: WriteResult, read: ReadResult)

  predicate Succeeded(io: Io) { io.write.Wrote? && io.read.ReadBack? }

  predicate ErrorFree(trace: seq<Io>) { forall k :: 0 <= k < |trace| ==> Succeeded(trace[k]) }

  /** Counters together with the message the last iteration produced. */
  datatype State = State(stats: Stats, msg: Msg)

  function Max(a: int, b: int): int { if a < b then b else a }

  /**
   * One iteration of the test on counters `s`, given the transport's answers:
   * packet `packetsSent + 1` is written; a write error changes nothing; a read
   * error leaves only the sending side advanced; otherwise the echo is counted,
   * compared by digest, the loss recomputed when positive, and the run finishes
   * once `maxPackets` packets have gone out.
   */
  function Step(s: Stats, maxPackets: int, hash: Bytes -> Digest, io: Io): (r: State)
    // a write error is reported and changes no counter
    ensures io.write.WriteFailed? ==> r.stats == s && r.msg == ErrorMsg(WriteError)
    // a read error is reported after the send side advanced, and only it
    ensures io.write.Wrote? && io.read.ReadFailed? ==>
      r.msg == ErrorMsg(ReadError) &&
      r.stats.packetsSent == s.packetsSent + 1 && r.stats.bytesSent == s.bytesSent + io.write.n &&
      r.stats.(packetsSent := s.packetsSent, bytesSent := s.bytesSent) == s
    // a full round trip advances both sides by one packet and by the bytes moved
    ensures Succeeded(io) ==>
      r.stats.packetsSent == s.packetsSent + 1 && r.stats.packetsRecv == s.packetsRecv + 1 &&
      r.stats.bytesSent == s.bytesSent + io.write.n && r.stats.bytesRecv == s.bytesRecv + |io.read.data| &&
      r.stats.packetsSent - r.stats.packetsRecv == s.packetsSent - s.packetsRecv
    // a mismatch is counted exactly when the digests differ
    ensures Succeeded(io) ==>
      (r.stats.packetsErr == s.packetsErr + 1 <==> hash(Payload(s.packetsSent + 1)) != hash(io.read.data)) &&
      (r.stats.packetsErr == s.packetsErr <==> hash(Payload(s.packetsSent + 1)) == hash(io.read.data))
    // an unmodified echo is never a mismatch; a mismatch means the echo was altered
    ensures Succeeded(io) && io.read.data == Payload(s.packetsSent + 1) ==> r.stats.packetsErr == s.packetsErr
    ensures r.stats.packetsErr != s.packetsErr ==> Succeeded(io) && io.read.data != Payload(s.packetsSent + 1)
    // the loss is overwritten only when sends outnumber receipts
    ensures Succeeded(io) ==>
      (r.stats.packetsSent > r.stats.packetsRecv ==> r.stats.packetsLost == r.stats.packetsSent - r.stats.packetsRecv) &&
      (r.stats.packetsSent <= r.stats.packetsRecv ==> r.stats.packetsLost == s.packetsLost)
    ensures s.packetsLost >= 0 ==> r.stats.packetsLost >= 0
    // the run finishes exactly when the target is reached, and continues otherwise
    ensures Succeeded(io) ==>
      (r.msg == SerialTestResult <==> r.stats.packetsSent >= maxPackets) &&
      (r.msg == SerialTestMsg <==> r.stats.packetsSent < maxPackets)
    ensures r.msg == SerialTestMsg ==> Succeeded(io) && r.stats.packetsSent < maxPackets
    ensures r.msg in {SerialTestMsg, SerialTestResult, ErrorMsg(WriteError), ErrorMsg(ReadError)}
    ensures r.stats.packetsSent >= s.packetsSent
    ensures Consistent(s) ==> Consistent(r.stats)
  {
    match io.write
    case WriteFailed => State(s, ErrorMsg(WriteError))
    case Wrote(n) =>
      var sent := s.(bytesSent := s.bytesSent + n, packetsSent := s.packetsSent + 1);
      match io.read
      case ReadFailed => State(sent, ErrorMsg(ReadError))
      case ReadBack(data) =>
        var recv := sent.(bytesRecv := sent.bytesRecv + |data|, packetsRecv := sent.packetsRecv + 1);
        var checked :=
          if hash(Payload(s.packetsSent + 1)) != hash(data) then recv.(packetsErr := recv.packetsErr + 1)
          else recv;
        var settled :=
          if checked.packetsSent > checked.packetsRecv
          then checked.(packetsLost := checked.packetsSent - checked.packetsRecv)
          else checked;
        State(settled, if settled.packetsSent >= maxPackets then SerialTestResult else SerialTestMsg)
  }

  /**
   * A run from counters `s` that met the transport answers in `trace`, one per
   * iteration: it starts with an iteration pending, performs one iteration per
   * answer while iterations are requested, and stays put once one did not ask
   * for another.
   */
  function Chain(s: Stats, maxPackets: int, hash: Bytes -> Digest, trace: seq<Io>): (r: State)
    // a run ends pending, finished, or on a write or read error
    ensures r.msg in {SerialTestMsg, SerialTestResult, ErrorMsg(WriteError), ErrorMsg(ReadError)}
    // each answer performs at most one send, and sends are never taken back
    ensures s.packetsSent <= r.stats.packetsSent <= s.packetsSent + |trace|
    decreases |trace|
  {
    if trace == [] then State(s, SerialTestMsg)
    else
      var prev := Chain(s, maxPackets, hash, trace[..|trace| - 1]);
      if prev.msg == SerialTestMsg then Step(prev.stats, maxPackets, hash, trace[|trace| - 1])
      else prev
  }

  /** Extending a run that asks for another iteration by one answer performs exactly that iteration. */
  lemma ChainExtend(s: Stats, maxPackets: int, hash: Bytes -> Digest, trace: seq<Io>, io: Io)
    requires Chain(s, maxPackets, hash, trace).msg == SerialTestMsg
    ensures Chain(s, maxPackets, hash, trace + [io]) == Step(Chain(s, maxPackets, hash, trace).stats, maxPackets, hash, io)
  {
    assert (trace + [io])[..|trace|] == trace;
  }

  /**
   * What a run from counters `start` and write log `written0` has achieved after
   * meeting the transport answers `trace`, with counters `s`, latest message
   * `last` and write log `written`: the counters are Chain's and consistent,
   * every answer but the last asked for another iteration, each iteration wrote
   * the next packet, and the bytes counted stay within what was written and
   * the read buffer.
   */
  ghost predicate RunFacts(start: Stats, maxPackets: int, hash: Bytes -> Digest, written0: seq<Bytes>,
                           trace: seq<Io>, last: Msg, s: Stats, written: seq<Bytes>)
  {
    Consistent(s) &&
    State(s, last) == Chain(start, maxPackets, hash, trace) &&
    (|trace| > 0 ==> Chain(start, maxPackets, hash, trace[..|trace| - 1]).msg == SerialTestMsg) &&
    written == written0 + Payloads(start.packetsSent, |trace|) &&
    (last == SerialTestMsg ==> s.packetsSent == start.packetsSent + |trace|) &&
    s.bytesSent - start.bytesSent <= TotalLength(Payloads(start.packetsSent, |trace|)) &&
    s.bytesRecv - start.bytesRecv <= ReadBufferSize * (s.packetsRecv - start.packetsRecv)
  }

  /** One more iteration, with answers the transport can give, keeps RunFacts. */
  lemma RunFactsNext(start: Stats, maxPackets: int, hash: Bytes -> Digest, written0: seq<Bytes>,
                     trace: seq<Io>, s: Stats, written: seq<Bytes>, io: Io)
    requires RunFacts(start, maxPackets, hash, written0, trace, SerialTestMsg, s, written)
    requires io.write.Wrote? ==> io.write.n <= |Payload(s.packetsSent + 1)|
    requires io.read.ReadBack? ==> |io.read.data| <= ReadBufferSize
    ensures var next := Step(s, maxPackets, hash, io);
      RunFacts(start, maxPackets, hash, written0, trace + [io], next.msg, next.stats,
               written + [Payload(s.packetsSent + 1)])
  {
    ChainExtend(start, maxPackets, hash, trace, io);
    assert (trace + [io])[..|trace|] == trace;
    PayloadsNext(start.packetsSent, |trace|);
  }

  /** Loss rate shown to the user, in percent; 0 before anything was sent. */
  function LossRatePercent(s: Stats): (r: real)
    ensures s.packetsSent <= 0 ==> r == 0.0
    ensures 0 <= s.packetsRecv <= s.packetsSent ==> 0.0 <= r <= 100.0
    ensures 0 < s.packetsSent == s.packetsRecv ==> r == 0.0
  {
    if s.packetsSent > 0 then
      var lost := (s.packetsSent - s.packetsRecv) as real;
      var sent := s.packetsSent as real;
      assert 0 <= s.packetsRecv ==> lost <= sent;
      lost / sent * 100.0
    else 0.0
  }

  /** A run still asking for another iteration has gone through only successful ones, one packet each. */
  lemma {:induction false} ContinuingChain(s: Stats, maxPackets: int, hash: Bytes -> Digest, trace: seq<Io>)
    requires Chain(s, maxPackets, hash, trace).msg == SerialTestMsg
    ensures ErrorFree(trace)
    ensures Chain(s, maxPackets, hash, trace).stats.packetsSent == s.packetsSent + |trace|
    ensures Chain(s, maxPackets, hash, trace).stats.packetsRecv == s.packetsRecv + |trace|
    ensures |trace| > 0 ==> s.packetsSent + |trace| < maxPackets
    decreases |trace|
  {
    if trace != [] {
      var init := trace[..|trace| - 1];
      var prev := Chain(s, maxPackets, hash, init);
      assert prev.msg == SerialTestMsg;
      ContinuingChain(s, maxPackets, hash, init);
      assert trace == init + [trace[|trace| - 1]];
    }
  }

  /**
   * Never a further write: a run whose every iteration but the last asked for
   * another performs at most max(1, maxPackets - packetsSent) iterations.
   */
  lemma WritesBounded(s: Stats, maxPackets: int, hash: Bytes -> Digest, trace: seq<Io>)
    requires |trace| > 0
    requires Chain(s, maxPackets, hash, trace[..|trace| - 1]).msg == SerialTestMsg
    ensures |trace| <= Max(1, maxPackets - s.packetsSent)
  {
    ContinuingChain(s, maxPackets, hash, trace[..|trace| - 1]);
  }

  /**
   * Without transport errors the run asks for another iteration until
   * max(1, maxPackets - packetsSent) packets have been sent, then finishes.
   */
  lemma {:induction false} ErrorFreeChain(s: Stats, maxPackets: int, hash: Bytes -> Digest, trace: seq<Io>)
    requires ErrorFree(trace)
    requires 1 <= |trace| <= Max(1, maxPackets - s.packetsSent)
    ensures Chain(s, maxPackets, hash, trace).msg ==
      if |trace| < Max(1, maxPackets - s.packetsSent) then SerialTestMsg else SerialTestResult
    ensures Chain(s, maxPackets, hash, trace).stats.packetsSent == s.packetsSent + |trace|
    ensures Chain(s, maxPackets, hash, trace).stats.packetsRecv == s.packetsRecv + |trace|
    decreases |trace|
  {
    var init := trace[..|trace| - 1];
    var io := trace[|trace| - 1];
    assert Succeeded(io);
    if |trace| > 1 {
      assert ErrorFree(init) by {
        forall k | 0 <= k < |init| ensures Succeeded(init[k]) { assert init[k] == trace[k]; }
      }
      ErrorFreeChain(s, maxPackets, hash, init);
    }
  }

  /** An error-free run that stopped did so by finishing, after exactly max(1, maxPackets - packetsSent) packets. */
  lemma ErrorFreeRunLength(s: Stats, maxPackets: int, hash: Bytes -> Digest, trace: seq<Io>)
    requires ErrorFree(trace) && |trace| > 0
    requires Chain(s, maxPackets, hash, trace[..|trace| - 1]).msg == SerialTestMsg
    requires Chain(s, maxPackets, hash, trace).msg != SerialTestMsg
    ensures |trace| == Max(1, maxPackets - s.packetsSent)
    ensures Chain(s, maxPackets, hash, trace).msg == SerialTestResult
    ensures Chain(s, maxPackets, hash, trace).stats.packetsSent == s.packetsSent + |trace|
  {
    WritesBounded(s, maxPackets, hash, trace);
    ErrorFreeChain(s, maxPackets, hash, trace);
  }

  /**
   * Started balanced with no loss, a run never records a loss: sends exceed
   * receipts by one only after a read error, which ends the run before the
   * loss is recomputed.
   */
  lemma {:induction false} LossStaysZero(s: Stats, maxPackets: int, hash: Bytes -> Digest, trace: seq<Io>)
    requires s.packetsLost == 0 && s.packetsSent == s.packetsRecv
    ensures Chain(s, maxPackets, hash, trace).stats.packetsLost == 0
    ensures Chain(s, maxPackets, hash, trace).stats.packetsSent - Chain(s, maxPackets, hash, trace).stats.packetsRecv ==
      if Chain(s, maxPackets, hash, trace).msg == ErrorMsg(ReadError) then 1 else 0
    decreases |trace|
  {
    if trace != [] {
      LossStaysZero(s, maxPackets, hash, trace[..|trace| - 1]);
    }
  }

  /** Every run keeps the counters consistent. */
  lemma {:induction false} ChainConsistent(s: Stats, maxPackets: int, hash: Bytes -> Digest, trace: seq<Io>)
    requires Consistent(s)
    ensures Consistent(Chain(s, maxPackets, hash, trace).stats)
    decreases |trace|
  {
    if trace != [] {
      ChainConsistent(s, maxPackets, hash, trace[..|trace| - 1]);
    }
  }

  /** The echoes of a run are unmodified: the k-th read returns packet packetsSent + k + 1. */
  predicate Echoed(s: Stats, trace: seq<Io>)
  {
    forall k :: 0 <= k < |trace| && trace[k].read.ReadBack? ==> trace[k].read.data == Payload(s.packetsSent + k + 1)
  }

  /** A run whose echoes come back unmodified counts no mismatch. */
  lemma {:induction false} EchoedRunHasNoMismatch(s: Stats, maxPackets: int, hash: Bytes -> Digest, trace: seq<Io>)
    requires Echoed(s, trace)
    ensures Chain(s, maxPackets, hash, trace).stats.packetsErr == s.packetsErr
    decreases |trace|
  {
    if trace != [] {
      var init := trace[..|trace| - 1];
      assert Echoed(s, init) by {
        forall k | 0 <= k < |init| && init[k].read.ReadBack? ensures init[k].read.data == Payload(s.packetsSent + k + 1) {
          assert init[k] == trace[k];
        }
      }
      EchoedRunHasNoMismatch(s, maxPackets, hash, init);
      if Chain(s, maxPackets, hash, init).msg == SerialTestMsg {
        ContinuingChain(s, maxPackets, hash, init);
      }
    }
  }

  /**
   * A test from a freshly opened model whose transport never fails sends and
   * receives exactly max(1, maxPackets) packets, finishes, loses none and shows
   * a 0% loss rate.
   */
  lemma ErrorFreeTest(maxPackets: int, hash: Bytes -> Digest, trace: seq<Io>)
    requires ErrorFree(trace) && |trace| > 0
    requires Chain(Zero, maxPackets, hash, trace[..|trace| - 1]).msg == SerialTestMsg
    requires Chain(Zero, maxPackets, hash, trace).msg != SerialTestMsg
    ensures |trace| == Max(1, maxPackets)
    ensures Chain(Zero, maxPackets, hash, trace).msg == SerialTestResult
    ensures Chain(Zero, maxPackets, hash, trace).stats.packetsSent == |trace|
    ensures Chain(Zero, maxPackets, hash, trace).stats.packetsRecv == |trace|
    ensures Chain(Zero, maxPackets, hash, trace).stats.packetsLost == 0
    ensures LossRatePercent(Chain(Zero, maxPackets, hash, trace).stats) == 0.0
  {
    ErrorFreeRunLength(Zero, maxPackets, hash, trace);
    ErrorFreeChain(Zero, maxPackets, hash, trace);
    LossStaysZero(Zero, maxPackets, hash, trace);
  }
}

# Serial loopback test engine

A Dafny model of the round-trip loopback test of `linux-test-tui`. The test
checks a serial link by writing a numbered packet (`"Test packet N"`), reading
the echo into a 256-byte buffer and comparing the SHA-256 digests of both. It
keeps counters of bytes and packets sent and received, of mismatches and of
lost packets. It finishes once the requested number of packets has gone out.

Modules:

- `Packets` (`packets.dfy`): bytes, the decimal rendering of Go's `%d`, and
  the packet payloads. Payloads are proved distinct for distinct sequence
  numbers, via a parse-back round trip of the decimal text.
- `Transport` (`transport.dfy`): the serial driver as a `Port` class. `Open`,
  `Write` and `Read` have nondeterministic outcomes. Only the driver's interface
  is promised: a write moves at most the bytes it was given, a read returns at
  most the buffer's size, and a closed port fails. A ghost log records every
  buffer handed to `Write`.
- `Loopback` (`loopback.dfy`): the engine as values. `Step` is one iteration
  of the `serialTest` closure on the counters, given the transport's answers.
  `Chain` is a run: iterations performed while each one asks for another. The
  lemmas about runs live here.
- `Tui` (`tui.dfy`): the `SerialModel` object with its fields updated in
  place. `SerialTest` is the iteration, `Update` the message dispatcher and
  `Run` the loop that replaces bubbletea's re-triggering of `serialTestMsg`.
  `NewSerialModel` opens the port. `SerialTest` is proved against `Step`, and `Run` against `Chain`.

The content hash (`calculateHash`) is a parameter `hash: Bytes -> Digest`,
kept as a field of the model. Any function is deterministic, so equal inputs
give equal digests. No collision resistance is assumed, so a digest mismatch
is proved to imply an altered echo, but not the converse.

Behaviour of the code worth knowing, each stated and proved in the model:

- A read error returns before the loss is recomputed (tui/tui.go:139-142
  against 151-153). After a read error `packetsSent - packetsRecv` is 1 while
  `packetsLost` keeps its old value. A read error also ends the run, so from a
  fresh model `packetsLost` is always 0 (`LossStaysZero`).
- The target is always `maxPackets`, and at least one packet is sent even when
  `maxPackets <= 0`: an error-free run sends exactly `max(1, maxPackets)`.
- An error message schedules no further iteration, so the chain of iterations
  stops at the first write or read error (tui/tui.go:189-193).

## Model

| member | source | states |
|---|---|---|
| `Packets.FormatInt` | tui/tui.go:127 | `%d` rendering: a leading minus sign exactly for negatives, digits otherwise |
| `Packets.FormatIntRoundTrip` | tui/tui.go:127 | parsing the decimal text back yields the integer: the sequence number is recoverable from the packet |
| `Packets.Ascii` | tui/tui.go:129 | `[]byte(testData)` of an ASCII string is one byte per character with the same code |
| `Packets.Payload` | tui/tui.go:127-129 | the packet for sequence number N is the bytes of `"Test packet "` followed by N in decimal |
| `Packets.PayloadInjective` | tui/tui.go:127 | packets with different sequence numbers differ |
| `Transport.Open` | tui/tui.go:56-59 | opening either fails or yields a fresh open port that has written nothing |
| `Transport.Port.Write` | tui/tui.go:129 | a write is logged, moves at most the bytes given, and fails on a closed port |
| `Transport.Port.Read` | tui/tui.go:138-139 | a read returns at most the buffer's capacity and fails on a closed port |
| `Transport.Port.Close` | tui/tui.go:172-175 | after closing the port is closed; no error is reported |
| `Loopback.Step` | tui/tui.go:124-164 | a write error changes no counter; a read error advances only `packetsSent`/`bytesSent`; a full round trip adds one packet on each side and the bytes moved, keeping `packetsSent - packetsRecv`; `packetsErr` grows by one exactly when the digests differ and never for an unmodified echo; `packetsLost` is overwritten only when sends exceed receipts and never becomes negative; the result is "finished" iff `packetsSent >= maxPackets` after a round trip; consistent counters stay consistent |
| `Loopback.Chain` | tui/tui.go:117-193 | a run starts with one iteration pending (Init), performs one iteration per transport answer while each asks for another, and stops for good at the first that does not (finished, or an error message, which schedules nothing); it ends pending, finished, or on a write or read error, and sends at most one packet per answer, never fewer than before |
| `Loopback.RunFactsNext` | tui/tui.go:124-182 | one more iteration, with answers the port can give, keeps what a run has achieved: counters equal to `Chain`'s and consistent, the next packet appended to the write log, bytes sent within the packets' total length and bytes received within 256 per packet |
| `Loopback.LossRatePercent` | tui/tui.go:210-213 | the loss rate is 0 when nothing was sent and lies between 0 and 100 when receipts do not exceed sends |
| `Loopback.ContinuingChain` | tui/tui.go:156-162 | a run still asking for another iteration had no error and sent and received one packet per iteration, staying below `maxPackets` |
| `Loopback.WritesBounded` | tui/tui.go:156-162 | a run performs at most `max(1, maxPackets - packetsSent)` writes: never a further one after the target |
| `Loopback.ErrorFreeChain` | tui/tui.go:156-162 | without transport errors the run continues until `max(1, maxPackets - packetsSent)` packets are sent, then finishes |
| `Loopback.ErrorFreeRunLength` | tui/tui.go:156-162 | an error-free run that stopped finished after exactly `max(1, maxPackets - packetsSent)` writes |
| `Loopback.LossStaysZero` | tui/tui.go:139-153 | from balanced counters with no loss, `packetsLost` stays 0 and sends exceed receipts (by one) only after a read error |
| `Loopback.ChainConsistent` | tui/tui.go:133-153 | every run keeps the counters non-negative, with receipts at most sends and mismatches at most receipts |
| `Loopback.EchoedRunHasNoMismatch` | tui/tui.go:145-150 | a run whose reads return the packets unmodified counts no mismatch |
| `Loopback.ErrorFreeTest` | tui/tui.go:106-164 | from a fresh model, an error-free test sends and receives exactly `max(1, maxPackets)` packets, finishes, loses none and shows 0% loss |
| `Tui.SerialModel.constructor` | tui/tui.go:106-114 | a new model has zero counters, is not quitting and has `maxPackets == count` |
| `Tui.NewSerialModel` | tui/tui.go:51-59 | a failed open is an open error with no model; otherwise the model is fresh with zero counters, not quitting, `maxPackets == count` and an open port that has written nothing |
| `Tui.SerialModel.SerialTest` | tui/tui.go:124-164 | the counters and returned message are those of `Step` on the transport's answers; exactly packet `packetsSent + 1` is written, and at most its length is counted as sent; on a closed port the iteration is a write error that changes nothing; `isQuitting` is set when the run finishes; the counters stay consistent |
| `Tui.SerialModel.Update` | tui/tui.go:166-198 | a quit key (`q`, `ctrl+c`) sets `isQuitting`, closes the port if there is one and quits; only a continuation message schedules an iteration; the finish message quits; an error schedules nothing and is reported only when not quitting; counters never change and stay consistent |
| `Tui.QuitDuringTest` | tui/tui.go:168-176 | after a quit key the port is closed and the model quitting; the iteration still under way then fails on its write, changes no counter, and `Update` does not report its error |
| `Tui.SerialModel.Run` | tui/tui.go:117-122 | starting with one pending iteration, the counters and last message equal `Chain` over the transport's answers; the k-th write is packet `packetsSent + k`; at most `max(1, maxPackets - packetsSent)` writes, exactly that many and a finish when error-free; bytes counted as sent stay within the total length of the packets written, and received bytes within 256 per received packet |

## Left out

- `View` and all styling, the spinner, the progress bar and the statistics table (tui/tui.go:17-24, 61-104, 200-232) are terminal rendering. Of them only the loss-rate formula is modelled, with reals instead of floating point. The progress clamp is not modelled.
- Spinner tick messages and the commands they return are not modelled. They only drive the animation.
- Key presses are not interleaved with a running test in `Run`. bubbletea delivers them concurrently with an in-flight write or read. `QuitDuringTest` covers a quit key arriving between the start of a run and its next write; a quit arriving during a read is not modelled.
- SHA-256 and hex encoding are an opaque `hash` parameter. Without collision resistance a one-byte corruption of the echo is not proved to count as a mismatch.
- `log.Printf` output becomes the `reported` result of `Update`/`Run`. Error texts ("write error: …", "read error: …", the driver's own error) are reduced to the kind of error.
- Counters are unbounded integers. Go's `int` (32 or 64 bits by platform) can wrap. `bytesSent` wraps first, after 2^31−1 bytes on a 32-bit target or 2^63−1 on a 64-bit one. This is not modelled.
- On an open failure Go also returns an empty `SerialModel`, which its caller discards; the model returns only the error.
- cmd/test.go and cmd/root.go (flag parsing, defaults, program launch) are not part of this model.

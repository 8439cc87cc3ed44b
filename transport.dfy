/**
 * The serial-port driver as the loopback test sees it: a connection that can
 * be opened, written, read and closed. Which calls fail, how many bytes a call
 * moves and what a read returns are left open (nondeterministic); only the
 * driver's interface guarantees are stated.
 */
module Transport {
  import opened Packets
  import opened Wrappers

  /** Outcome of one `Write`: an error, or the number of bytes written. */
  datatype WriteResult = WriteFailed | Wrote(n: nat)

  /** Outcome of one `Read`: an error, or the bytes placed at the front of the buffer. */
  datatype ReadResult = ReadFailed | ReadBack(data: Bytes)

  class Port {
    const name: string
    const baudRate: int
    var open: bool
    /** Every buffer handed to Write, in call order. */
    ghost var written: seq<Bytes>

    constructor (name: string, baudRate: int)
      ensures this.name == name && this.baudRate == baudRate
      ensures open && written == []
    {
      this.name := name;
      this.baudRate := baudRate;
      open := true;
      written := [];
    }

    /** Writes `data`; a closed port always fails, an open one may write a prefix or fail. */
    method Write(data: Bytes) returns (w: WriteResult)
      modifies this
      ensures open == old(open)
      ensures written == old(written) + [data]
      ensures w.Wrote? ==> w.n <= |data|
      ensures !open ==> w.WriteFailed?
    {
      written := written + [data];
      var succeeds: bool := *;
      if open && succeeds {
        var n: nat :| n <= |data|;
        w := Wrote(n);
      } else {
        w := WriteFailed;
      }
    }

    /** Reads into a buffer of `capacity` bytes; what comes back is never longer than the buffer. */
    method Read(capacity: nat) returns (r: ReadResult)
      ensures r.ReadBack? ==> |r.data| <= capacity
      ensures !open ==> r.ReadFailed?
    {
      var succeeds: bool := *;
      if open && succeeds {
        var data: Bytes :| |data| <= capacity;
        r := ReadBack(data);
      } else {
        r := ReadFailed;
      }
    }

    /** Closes the connection; closing a closed port is harmless and errors are not reported. */
    method Close()
      modifies this
      ensures !open && written == old(written)
    {
      open := false;
    }
  }

  /** Opens the named device at the given baud rate, or fails. */
  method Open(name: string, baudRate: int) returns (p: Option<Port>)
    ensures p.Some? ==> fresh(p.value) && p.value.open && p.value.written == []
    ensures p.Some? ==> p.value.name == name && p.value.baudRate == baudRate
  {
    var succeeds: bool := *;
    if succeeds {
      var port := new Port(name, baudRate);
      p := Some(port);
    } else {
      p := None;
    }
  }
}

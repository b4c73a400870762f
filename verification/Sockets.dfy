/** A client connection as the server sees it: an object that records what was done to it and plays
    back a script of the outcomes of socket calls. */
module Sockets {
  import opened Octets

  /** How a call ends: normally, by an Exception, or by another BaseException. */
  datatype Ending = Returns | RaisesException | RaisesOther

  /** What one recv yields: some bytes, end of file, or an OSError or TimeoutError. */
  datatype Received = Data | Eof | Failed

  /** How many recv calls a drain makes of these outcomes: up to the first that is not data. */
  function DrainLength(incoming: seq<Received>): (n: nat)
    ensures n <= |incoming|
    ensures forall k :: 0 <= k < n - 1 ==> incoming[k].Data?
    ensures n < |incoming| ==> n > 0 && !incoming[n - 1].Data?
  {
    if incoming == [] then 0
    else if incoming[0].Data? then 1 + DrainLength(incoming[1..])
    else 1
  }

  lemma DrainStep(incoming: seq<Received>, k: nat)
    requires k < |incoming|
    ensures DrainLength(incoming[k..]) == 1 + (if incoming[k].Data? then DrainLength(incoming[k + 1..]) else 0)
  {
    assert incoming[k..][1..] == incoming[k + 1..];
  }

  class Connection {
    const timeoutWorks: bool       // settimeout in process_request
    const drainTimeoutWorks: bool  // settimeout(1.0) before draining
    const sendWorks: bool
    const written: nat             // bytes that still get out when sendall fails
    const halfCloseWorks: bool
    const incoming: seq<Received>  // what recv yields; then silence, until the timeout

    var sent: Bytes
    var halfClosed: bool
    var consumed: nat
    var shuts: nat                 // calls of shutdown_request that returned

    ghost predicate Valid()
      reads this
    {
      consumed <= |incoming|
    }

    constructor (timeoutWorks: bool, drainTimeoutWorks: bool, sendWorks: bool, written: nat,
                 halfCloseWorks: bool, incoming: seq<Received>)
      ensures Valid() && sent == [] && !halfClosed && consumed == 0 && shuts == 0
      ensures this.timeoutWorks == timeoutWorks && this.drainTimeoutWorks == drainTimeoutWorks
      ensures this.sendWorks == sendWorks && this.written == written
      ensures this.halfCloseWorks == halfCloseWorks && this.incoming == incoming
    {
      this.timeoutWorks, this.drainTimeoutWorks := timeoutWorks, drainTimeoutWorks;
      this.sendWorks, this.written := sendWorks, written;
      this.halfCloseWorks, this.incoming := halfCloseWorks, incoming;
      sent, halfClosed, consumed, shuts := [], false, 0, 0;
    }

    /** sendall works at most until the connection is half-closed or shut down. */
    ghost predicate CanSend()
      reads this
    {
      sendWorks && !halfClosed && shuts == 0
    }

    method SendAll(data: Bytes) returns (ok: bool)
      modifies this`sent
      ensures ok == CanSend()
      ensures ok ==> sent == old(sent) + data
      ensures !ok ==> old(sent) <= sent <= old(sent) + data
    {
      ok := sendWorks && !halfClosed && shuts == 0;
      sent := sent + (if ok || written > |data| then data else data[..written]);
    }

    method Recv() returns (r: Received)
      requires Valid()
      modifies this`consumed
      ensures Valid()
      ensures old(consumed) < |incoming| ==> r == incoming[old(consumed)] && consumed == old(consumed) + 1
      ensures old(consumed) == |incoming| ==> r.Failed? && consumed == old(consumed)
    {
      if consumed < |incoming| {
        r := incoming[consumed];
        consumed := consumed + 1;
      } else {
        r := Failed;
      }
    }

    /** The drain loop: reads up to the first end of file, error or timeout, and not beyond. */
    method Drain()
      requires Valid()
      modifies this`consumed
      ensures Valid()
      ensures consumed == old(consumed) + DrainLength(incoming[old(consumed)..])
    {
      if consumed < |incoming| { DrainStep(incoming, consumed); }
      var r := Recv();
      while r.Data?
        invariant Valid()
        invariant old(consumed) + DrainLength(incoming[old(consumed)..])
                  == consumed + (if r.Data? then DrainLength(incoming[consumed..]) else 0)
        decreases |incoming| - consumed, r.Data?
      {
        if consumed < |incoming| { DrainStep(incoming, consumed); }
        r := Recv();
      }
    }

    /** Half-closes the write side and reads what the client still sends, as both rejection responses
        do after their sendall. */
    method HalfCloseAndDrain()
      requires Valid()
      modifies this`halfClosed, this`consumed
      ensures Valid()
      ensures halfClosed == (old(halfClosed) || halfCloseWorks)
      ensures consumed == old(consumed) + (if halfCloseWorks && drainTimeoutWorks
                                           then DrainLength(incoming[old(consumed)..]) else 0)
    {
      if !halfCloseWorks { return; }
      halfClosed := true;
      if !drainTimeoutWorks { return; }
      Drain();
    }

    /** shutdown_request, with the given ending. */
    method ShutdownRequest(e: Ending)
      modifies this`shuts
      ensures shuts == old(shuts) + (if e.Returns? then 1 else 0)
    {
      if e.Returns? { shuts := shuts + 1; }
    }
  }
}

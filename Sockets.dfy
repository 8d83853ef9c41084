/** A connected stream socket as the protocol sees it. The operating system's
    socket is not part of this model: `incoming` holds every byte the peer
    will still send (once it is empty the peer has closed), `outgoing` is
    everything written so far. */
module Sockets {
  import opened Wire

  class Socket {
    var incoming: seq<Byte>
    var outgoing: seq<Byte>
    var closed: bool
    /** How many times close() reached the operating system. */
    ghost var closeCount: nat

    constructor (input: seq<Byte>)
      ensures incoming == input && outgoing == [] && !closed && closeCount == 0
    {
      incoming, outgoing, closed := input, [], false;
      closeCount := 0;
    }

    /** socket.recv(bufsize): some non-empty prefix of at most bufsize of the
        pending bytes (how many is up to the network), or no bytes at all
        once the peer has closed. */
    method Recv(bufsize: nat) returns (chunk: seq<Byte>)
      requires !closed && bufsize > 0
      modifies this`incoming
      ensures old(incoming) == chunk + incoming
      ensures |chunk| <= bufsize
      ensures chunk == [] <==> old(incoming) == []
    {
      if incoming == [] {
        chunk := [];
      } else {
        var k :| 1 <= k <= bufsize && k <= |incoming|;
        chunk, incoming := incoming[..k], incoming[k..];
      }
    }

    /** socket.sendall(data) */
    method SendAll(data: seq<Byte>)
      requires !closed
      modifies this`outgoing
      ensures outgoing == old(outgoing) + data
    {
      outgoing := outgoing + data;
    }

    /** socket.close() */
    method Close()
      modifies this`closed, this`closeCount
      ensures closed && closeCount == old(closeCount) + 1
    {
      closed := true;
      closeCount := closeCount + 1;
    }
  }
}

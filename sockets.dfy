/**
 * An abstract stream socket and the network it is opened on. Nothing here
 * touches a real network: the environment decides, through `Network.outcome`,
 * whether the next connect succeeds, which bytes the peer sends back and
 * whether the read deadline elapses. Ghost state records what the client does
 * with the socket: whether it is open, every call made on it, and the bytes
 * written to it.
 */
module Sockets {
  import opened PhpValues

  /** One call on an open socket, in the order the client makes it. */
  datatype SocketCall =
    | SetReadTimeout(seconds: Value)   // stream_set_timeout
    | Write(bytes: string)              // fwrite
    | ReadAll                           // stream_get_contents
    | ReadMeta                          // stream_get_meta_data
    | Close                             // fclose

  class Socket {
    ghost var isOpen: bool
    ghost var calls: seq<SocketCall>
    ghost var written: string
    /** What the peer sends until it closes the connection or falls silent. */
    const peerResponse: string
    /** Whether the read deadline elapses before the peer closes. */
    const peerTimesOut: bool

    constructor Accept(response: string, timesOut: bool)
      ensures isOpen && calls == [] && written == []
      ensures peerResponse == response && peerTimesOut == timesOut
    {
      peerResponse, peerTimesOut := response, timesOut;
      isOpen, calls, written := true, [], [];
    }

    method SetTimeout(seconds: Value)
      requires isOpen
      modifies this
      ensures isOpen && written == old(written)
      ensures calls == old(calls) + [SetReadTimeout(seconds)]
    {
      calls := calls + [SetReadTimeout(seconds)];
    }

    method WriteAll(bytes: string)
      requires isOpen
      modifies this
      ensures isOpen && written == old(written) + bytes
      ensures calls == old(calls) + [Write(bytes)]
    {
      written := written + bytes;
      calls := calls + [Write(bytes)];
    }

    method GetContents() returns (bytes: string)
      requires isOpen
      modifies this
      ensures isOpen && written == old(written)
      ensures calls == old(calls) + [ReadAll]
      ensures bytes == peerResponse
    {
      calls := calls + [ReadAll];
      bytes := peerResponse;
    }

    /** The `timed_out` entry of the stream's metadata. */
    method TimedOut() returns (timedOut: bool)
      requires isOpen
      modifies this
      ensures isOpen && written == old(written)
      ensures calls == old(calls) + [ReadMeta]
      ensures timedOut == peerTimesOut
    {
      calls := calls + [ReadMeta];
      timedOut := peerTimesOut;
    }

    method CloseSocket()
      requires isOpen
      modifies this
      ensures !isOpen && written == old(written)
      ensures calls == old(calls) + [Close]
    {
      calls := calls + [Close];
      isOpen := false;
    }
  }

  /** What the environment does with the next connection attempt. */
  datatype ConnectOutcome =
    | Refused(errstr: string)
    | Accepted(response: string, timesOut: bool)

  /** One `fsockopen` call: target host, port and connect deadline. */
  datatype ConnectAttempt = ConnectAttempt(target: string, port: int, timeout: Value)

  class Network {
    var outcome: ConnectOutcome
    ghost var attempts: seq<ConnectAttempt>

    constructor (outcome: ConnectOutcome)
      ensures this.outcome == outcome && attempts == []
    {
      this.outcome := outcome;
      attempts := [];
    }

    /** `fsockopen`: a fresh open socket, or null and the error text. */
    method Open(target: string, port: int, timeout: Value) returns (socket: Socket?, errstr: string)
      modifies this
      ensures outcome == old(outcome)
      ensures attempts == old(attempts) + [ConnectAttempt(target, port, timeout)]
      ensures outcome.Refused? ==> socket == null && errstr == outcome.errstr
      ensures outcome.Accepted? ==>
                socket != null && fresh(socket) && socket.isOpen
                && socket.calls == [] && socket.written == []
                && socket.peerResponse == outcome.response
                && socket.peerTimesOut == outcome.timesOut
    {
      attempts := attempts + [ConnectAttempt(target, port, timeout)];
      if outcome.Refused? {
        socket, errstr := null, outcome.errstr;
      } else {
        socket := new Socket.Accept(outcome.response, outcome.timesOut);
        errstr := "";
      }
    }
  }
}

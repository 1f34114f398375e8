/**
 * `Artisaninweb\SoapWrapper\Client`: a SOAP client whose own transport
 * `doRequest` frames the envelope as an HTTP/1.0 POST itself, sends it over
 * a socket it opens and closes, and hands back the response with its
 * headers stripped. The SOAP engine underneath (WSDL handling, envelope
 * building, `__soapCall`) is not modelled; `parentOptions` records what the
 * constructor passes on to it. The engine calls its transport through
 * `__doRequest`, so as declared it never calls `doRequest` (module
 * `Dispatch`); `DoRequest` is the method as the engine would call it.
 */
module SoapWrapper {
  import opened Results
  import opened PhpValues
  import opened Timeouts
  import opened Endpoints
  import opened Framing
  import opened ResponseExtraction
  import opened Faults
  import opened Sockets

  class Client {
    /** Deadline for establishing the connection. */
    var connectionTimeout: Value
    /** Deadline for reading the response. */
    var socketTimeout: Value
    /** The options handed to the SOAP engine's constructor. */
    var parentOptions: map<string, Value>

    /**
     * Resolves both timeouts against `defaultSocketTimeout` (the process-wide
     * `default_socket_timeout` setting) and drops `socket_timeout` from the
     * options passed on. `wsdl` only goes to the engine's constructor.
     */
    constructor (wsdl: string, options: Value, defaultSocketTimeout: Value)
      requires AcceptableOptions(options)
      ensures connectionTimeout == ResolveTimeout(NormalizeOptions(options), ConnectionTimeoutKey, defaultSocketTimeout)
      ensures socketTimeout == ResolveTimeout(NormalizeOptions(options), SocketTimeoutKey, defaultSocketTimeout)
      ensures parentOptions == ParentOptions(options)
    {
      var opts := if Truthy(options) then options.entries else map[];
      var connection := Lookup(opts, ConnectionTimeoutKey);
      connectionTimeout := if Truthy(connection) then connection else defaultSocketTimeout;
      var socket := Lookup(opts, SocketTimeoutKey);
      socketTimeout := if Truthy(socket) then socket else defaultSocketTimeout;
      opts := opts - {SocketTimeoutKey};
      parentOptions := opts;
    }

    /**
     * The transport. `endpoint` is `parse_url(location)`; `version` and
     * `oneWay` are accepted for the engine's interface and not used.
     *
     * Exactly one connection is attempted, to the `ssl://`-prefixed host for
     * https, on the selected port, with the connection timeout. When it fails
     * the result is a connect fault, raised as a SoapFault, and no socket
     * exists. Otherwise the socket
     * sees, in order: the read timeout, one write of the framed request, one
     * read of everything, one look at the timed-out flag and one close; the
     * result is a timeout fault when the read timed out and the stripped
     * response otherwise. The client's own fields are not changed.
     */
    method DoRequest(request: string, location: string, endpoint: Endpoint, action: string,
                     version: int, oneWay: int, net: Network)
      returns (result: Result<string, Thrown>, ghost socket: Socket?)
      modifies net
      ensures net.outcome == old(net.outcome)
      ensures net.attempts == old(net.attempts)
                + [ConnectAttempt(ConnectTarget(endpoint), SelectPort(endpoint), connectionTimeout)]
      ensures net.outcome.Refused? ==>
                socket == null && result == Failure(Raise(ConnectFault(location, net.outcome.errstr)))
      ensures net.outcome.Accepted? ==>
                socket != null && fresh(socket) && !socket.isOpen
                && socket.peerResponse == net.outcome.response
                && socket.peerTimesOut == net.outcome.timesOut
                && socket.written == FrameRequest(location, endpoint.host, action, request)
                && socket.calls == [ SetReadTimeout(socketTimeout),
                                     Write(FrameRequest(location, endpoint.host, action, request)),
                                     ReadAll, ReadMeta, Close ]
                && result == if socket.peerTimesOut then Failure(Raise(TimeoutFault(location)))
                             else Success(StripHeaders(socket.peerResponse))
    {
      var host := endpoint.host;
      var port := if HasExplicitPort(endpoint) then endpoint.port.value
                  else if endpoint.scheme == "https" then 443 else 80;
      var length := |request|;

      var httpReq := "POST " + location + " HTTP/1.0\r\n";
      httpReq := httpReq + ("Host: " + host + "\r\n");
      httpReq := httpReq + ("SoapAction: " + action + "\r\n");
      httpReq := httpReq + ("Content-Type: text/xml; charset=utf-8\r\n");
      httpReq := httpReq + ("Content-Length: " + Decimal(length) + "\r\n");
      httpReq := httpReq + "\r\n";
      httpReq := httpReq + request;
      assert httpReq == FrameRequest(location, endpoint.host, action, request) by {
        ContentTypeLine();
      }

      if endpoint.scheme == "https" {
        host := "ssl://" + host;
      }

      assert host == ConnectTarget(endpoint) && port == SelectPort(endpoint);
      var s, errstr := net.Open(host, port, connectionTimeout);
      socket := s;
      if s == null {
        result := Failure(Raise(ConnectFault(location, errstr)));
        return;
      }

      s.SetTimeout(socketTimeout);
      s.WriteAll(httpReq);
      var httpResponse := s.GetContents();
      var timedOut := s.TimedOut();
      s.CloseSocket();
      if timedOut {
        result := Failure(Raise(TimeoutFault(location)));
        return;
      }

      result := Success(StripHeaders(httpResponse));
    }
  }
}

# laravel-soap `Client` transport, modelled in Dafny

`Artisaninweb\SoapWrapper\Client` extends PHP's `SoapClient`. Its `doRequest`
is an HTTP transport of its own. It is meant to take the place of the
engine's, but the engine only calls a method named `__doRequest`, so as
written it runs only when called directly (see "## Findings"). The method:

- chooses the port and the connect target for the location;
- frames the SOAP envelope as an HTTP/1.0 POST;
- writes the request over a socket it opens with the connection timeout;
- reads the whole response under the socket (read) timeout;
- closes the socket, and fails if the read timed out;
- strips the status line and the headers from the response.

The constructor resolves both timeouts. A truthy option wins; otherwise the
process-wide `default_socket_timeout` is used. It also removes `socket_timeout`
from the options it passes on to the engine.

This project models that core. The modules are:

- `PhpValues`: PHP values, truthiness, and the silenced array read `@$a[k]`.
- `Timeouts`: the constructor's option normalisation, timeout defaulting and
  option filtering.
- `Endpoints`: the parsed location, port selection and the `ssl://` connect
  target.
- `Framing`: the request framer. Its first line is shaped as the Request-Line
  of section 5.1 of RFC 1945, with the absolute URL as Request-URI. It writes
  Content-Length as in section 10.4 of RFC 1945, and the header that section
  6.1.1 of SOAP 1.1 names, written with its value unquoted. Beside it sits a parser for the same layout;
  parsing a framed request gives back its parts.
- `ResponseExtraction`: the `preg_replace('/\A.*?^\r$/smx', '', …)` header strip,
  written as the scan the pattern denotes.
- `Faults`: the two transport failures, and how PHP resolves the class they are
  raised with.
- `Sockets`: an abstract socket with ghost state (open or closed, every call made
  on it, the bytes written). The environment decides whether the connect
  succeeds, which bytes come back and whether the read times out.
- `Dispatch`: which transport the engine uses, given the methods a class
  declares.
- `SoapWrapper`: the `Client` class, with its constructor and `DoRequest`.

PHP strings are byte strings. Here each `char` stands for one byte, so
`strlen($s)` is `|s|`.

Three facts about the code that are easy to misread:

- The 6-byte envelope `<xml/>` is framed with `Content-Length: 6`: the length
  is `strlen` of the payload. `Framing.FrameRequestExample` proves it.
- The pattern's `$` consumes no character, so the LF that ends the empty line
  stays. A well-formed response is stripped to `"\n"` + body, not to the body
  alone.
- Both failures raise through an unqualified `SoapFault` that names an
  undeclared class; see "## Findings".

## Model

| member | source | states |
|---|---|---|
| `PhpValues.Truthy` | src/Artisaninweb/SoapWrapper/Client.php:23-29 | a value is falsy exactly when it is null, false, 0, "", "0" or the empty array |
| `PhpValues.Lookup` | src/Artisaninweb/SoapWrapper/Client.php:26-29 | `@$a[k]` is the stored value when the key is present, and null when it is absent |
| `Timeouts.NormalizeOptions` | src/Artisaninweb/SoapWrapper/Client.php:23 | a falsy options value becomes the empty array; an array is kept as it is |
| `Timeouts.ResolveTimeout` | src/Artisaninweb/SoapWrapper/Client.php:25-30 | the timeout is the option when it is present and truthy, and the default otherwise |
| `Timeouts.FalsyTimeoutFallsBack` | src/Artisaninweb/SoapWrapper/Client.php:25-30 | absent, null, false, 0, "", "0" and [] all fall back to the default |
| `Timeouts.ResolvedTimeoutTruthy` | src/Artisaninweb/SoapWrapper/Client.php:25-30 | a resolved timeout is truthy iff the option is truthy or the default is |
| `Timeouts.ParentOptions` | src/Artisaninweb/SoapWrapper/Client.php:31-32 | the options passed on have exactly the normalised keys minus `socket_timeout`, each with its value unchanged |
| `Timeouts.ParentOptionsKeepConnectionTimeout` | src/Artisaninweb/SoapWrapper/Client.php:31-32 | `connection_timeout` and every other key except `socket_timeout` are passed on unchanged; `socket_timeout` never is |
| `Timeouts.FalsyOptionsBecomeEmpty` | src/Artisaninweb/SoapWrapper/Client.php:23-32 | falsy options pass nothing on, and then every timeout key resolves to the default, whatever the default is |
| `SoapWrapper.Client.constructor` | src/Artisaninweb/SoapWrapper/Client.php:21-33 | the fields hold the two resolved timeouts, and the engine gets the filtered options |
| `Endpoints.PortValue` | src/Artisaninweb/SoapWrapper/Client.php:168 | `@$url_parts['port']` is null iff the location has no port, and the port as an integer otherwise |
| `Endpoints.HasExplicitPort` | src/Artisaninweb/SoapWrapper/Client.php:168 | the `?:` test takes the explicit port iff there is one and it is not 0 |
| `Endpoints.DefaultPort` | src/Artisaninweb/SoapWrapper/Client.php:169 | the default port is 443 iff the scheme is exactly `https`, and 80 iff it is not |
| `Endpoints.SelectPort` | src/Artisaninweb/SoapWrapper/Client.php:167-169 | the port is never 0; it is the explicit port when that is truthy, and the scheme default otherwise |
| `Endpoints.ExplicitPortOverridesScheme` | src/Artisaninweb/SoapWrapper/Client.php:167-169 | with a truthy explicit port, the selected port is that port under every scheme |
| `Endpoints.ConnectTarget` | src/Artisaninweb/SoapWrapper/Client.php:182-183 | the connect target is `ssl://` + host for `https` and the bare host otherwise |
| `Endpoints.TlsExactlyForHttps` | src/Artisaninweb/SoapWrapper/Client.php:167-183 | TLS is requested iff the scheme is `https`; without an explicit port, port 443 is used iff TLS is requested |
| `Endpoints.ConnectTargetEndsWithHost` | src/Artisaninweb/SoapWrapper/Client.php:182-183 | the bare host is always the tail of the connect target |
| `Framing.Decimal` | src/Artisaninweb/SoapWrapper/Client.php:170-177 | the rendered length is a non-empty string of decimal digits with no leading zero |
| `Framing.DecimalRoundTrip` | src/Artisaninweb/SoapWrapper/Client.php:170-177 | reading the rendered Content-Length value back gives the number that was rendered |
| `Framing.FrameRequest` | src/Artisaninweb/SoapWrapper/Client.php:170-179 | the framed request ends with the payload, verbatim |
| `Framing.FrameAsLines` | src/Artisaninweb/SoapWrapper/Client.php:172-179 | the framed request is five CRLF-terminated lines (Request-Line, Host, SoapAction, Content-Type, Content-Length), an empty line and the payload |
| `Framing.SplitLineOfLine` | src/Artisaninweb/SoapWrapper/Client.php:173-178 | each CR-free header line is read back whole, up to its own CRLF |
| `Framing.FrameRequestRoundTrip` | src/Artisaninweb/SoapWrapper/Client.php:170-179 | parsing the framed request gives back the location, the bare host, the action and the payload; the declared Content-Length equals the payload's length |
| `Framing.FrameRequestExample` | src/Artisaninweb/SoapWrapper/Client.php:170-179 | the 6-byte envelope `<xml/>` is framed with `Content-Length: 6` |
| `ResponseExtraction.FindCrLine` | src/Artisaninweb/SoapWrapper/Client.php:212-221 | the scan finds the smallest offset holding a lone-CR line, or reports that there is none |
| `ResponseExtraction.StripHeaders` | src/Artisaninweb/SoapWrapper/Client.php:212-222 | the result is a suffix of the response, so never longer. It is everything after the first lone-CR line, or the response unchanged when there is no such line |
| `ResponseExtraction.NoCrPassesThrough` | src/Artisaninweb/SoapWrapper/Client.php:212-221 | a response without any CR is returned unchanged |
| `ResponseExtraction.NoCrLineInLines` | src/Artisaninweb/SoapWrapper/Client.php:212-221 | no CR inside well-formed CRLF-terminated header lines forms a line of its own |
| `ResponseExtraction.StripWellFormedResponse` | src/Artisaninweb/SoapWrapper/Client.php:212-222 | status and header lines, an empty line, then a body are stripped to `"\n"` + body |
| `ResponseExtraction.StripFramedRequest` | src/Artisaninweb/SoapWrapper/Client.php:170-221 | when the peer echoes the framed request, the extracted result is `"\n"` + payload |
| `ResponseExtraction.StripsOnlyOnce` | src/Artisaninweb/SoapWrapper/Client.php:212-221 | only one prefix is removed; the result may itself still begin with a lone-CR line |
| `ResponseExtraction.LfOnlyHeadersPassThrough` | src/Artisaninweb/SoapWrapper/Client.php:212-221 | a header block ended by LF only is not recognised, and the response passes through |
| `Faults.Message` | src/Artisaninweb/SoapWrapper/Client.php:192-208 | the connect message is `Failed to connect to SOAP server (`, the location, `): ` and the socket's error text; the timeout message is `HTTP timeout contacting ` followed by the location |
| `Faults.ResolveClassName` | src/Artisaninweb/SoapWrapper/Client.php:5-190 | an imported name stays as it is; any other unqualified class name is prefixed with the namespace `Artisaninweb\SoapWrapper` and a backslash separator |
| `Faults.ThrowNewSoapFault` | src/Artisaninweb/SoapWrapper/Client.php:190-206 | `new SoapFault('Client', msg)` throws that fault iff the resolved class is declared, and a class-not-found error naming the resolved class otherwise |
| `Faults.RaiseAsWritten` | src/Artisaninweb/SoapWrapper/Client.php:5-209 | with only `SoapClient` imported, a failure never produces a SoapFault |
| `Faults.Raise` | src/Artisaninweb/SoapWrapper/Client.php:189-209 | with `SoapFault` imported, a failure is the SoapFault `Client` with the failure's message |
| `Faults.RaiseAsWrittenIsClassNotFound` | src/Artisaninweb/SoapWrapper/Client.php:5-209 | as written, both raises name the undeclared class `Artisaninweb\SoapWrapper\SoapFault` |
| `Faults.RaiseIsSoapFault` | src/Artisaninweb/SoapWrapper/Client.php:189-209 | with `SoapFault` imported, each failure is a `Client` SoapFault. The connect message is `Failed to connect to SOAP server (` + location + `): ` + the socket's error text; the timeout message is `HTTP timeout contacting ` + location |
| `Faults.MessagesDistinguishKinds` | src/Artisaninweb/SoapWrapper/Client.php:190-208 | a connect-failure message never equals a timeout message |
| `Sockets.Network.Open` | src/Artisaninweb/SoapWrapper/Client.php:186-188 | records one connect attempt (target, port, timeout); it returns null and the error text, or a fresh open socket with nothing written |
| `Sockets.Socket.SetTimeout` | src/Artisaninweb/SoapWrapper/Client.php:196 | needs an open socket; records the read timeout |
| `Sockets.Socket.WriteAll` | src/Artisaninweb/SoapWrapper/Client.php:197 | needs an open socket; appends the bytes to what was written |
| `Sockets.Socket.GetContents` | src/Artisaninweb/SoapWrapper/Client.php:200 | needs an open socket; returns what the peer sent |
| `Sockets.Socket.TimedOut` | src/Artisaninweb/SoapWrapper/Client.php:203 | needs an open socket; returns whether the read deadline elapsed |
| `Sockets.Socket.CloseSocket` | src/Artisaninweb/SoapWrapper/Client.php:204 | needs an open socket and leaves it closed |
| `Dispatch.TransportUsed` | src/Artisaninweb/SoapWrapper/Client.php:163 | the engine uses the class's own transport iff one of its methods has the name `__doRequest`, up to ASCII case |
| `Dispatch.EngineIgnoresDoRequest` | src/Artisaninweb/SoapWrapper/Client.php:21-249 | with the methods as declared, the engine keeps its built-in transport |
| `Dispatch.EngineUsesClientTransport` | src/Artisaninweb/SoapWrapper/Client.php:163 | with the transport named `__doRequest`, the engine sends through the client's transport |
| `SoapWrapper.Client.DoRequest` | src/Artisaninweb/SoapWrapper/Client.php:163-223 | one connect attempt to `ConnectTarget` on `SelectPort` with the connection timeout. If it fails, the result is a connect fault and there is no socket. Otherwise the socket sees exactly: set the read timeout, write the framed request once, read everything, read the timed-out flag, close once. It ends closed, and the result is a timeout fault or `StripHeaders` of the response. The client's fields are unchanged |

## Findings

| source | as written | input that shows it | evidently intended | confidence | as-written member | corrected member |
|---|---|---|---|---|---|---|
| src/Artisaninweb/SoapWrapper/Client.php:190 | `throw new SoapFault(…)` is unqualified inside namespace `Artisaninweb\SoapWrapper`, and line 5 imports only `SoapClient`. The name resolves to `Artisaninweb\SoapWrapper\SoapFault`, which is not declared, so PHP throws a class-not-found `Error` | any refused connection (line 190) or timed-out read (line 206) | a `SoapFault` with fault code `Client` and the message on line 192 or 208 | high; not executed | `Faults.RaiseAsWrittenIsClassNotFound` | `Faults.RaiseIsSoapFault` |
| src/Artisaninweb/SoapWrapper/Client.php:163 | the transport is declared as `doRequest`. `SoapClient` sends every request through `__doRequest`, and method names compare equal only up to case, not underscores. So the method overrides nothing and the engine keeps its built-in transport | any `__soapCall`, for example through `call` (line 233) | the method is named `__doRequest`, so that the engine sends each request through it | high; not executed | `Dispatch.EngineIgnoresDoRequest` | `Dispatch.EngineUsesClientTransport` |

`SoapWrapper.Client.DoRequest` models the method as the engine would call it
once named `__doRequest`. It raises through the corrected `Faults.Raise`.

## Left out

- The accessors `getFunctions`, `getLastRequest`, `getLastResponse`, `getLastRequestHeaders`, `getLastResponseHeaders`, `getTypes`, `getCookies`, `cookie`, `location` and `headers` are left out. Each is a one-line call into the SOAP engine, which is not part of this model.
- `call` and `SoapCall` are left out. They are dynamic dispatch into the engine (`call_user_func_array`, `__soapCall`).
- `parse_url` is left out. `DoRequest` takes its result as an `Endpoint` whose scheme and host are always present, because the code indexes them without a guard. Port values are not limited to 0..65535.
- The constructor's call to `parent::SoapClient` and the `__setSoapHeaders` call for non-empty headers are left out; they are engine calls. `Client.parentOptions` records the options that would be passed on. The `wsdl` argument only goes to that call, and the `$wsdl` property is never assigned.
- `ini_get('default_socket_timeout')` is a constructor parameter, not ambient process state.
- Timeout values are opaque PHP values; only their truthiness is modelled. Floats are not modelled, and neither is the meaning of a timeout in seconds.
- `SoapWrapper.Client.constructor`: options that are truthy but not arrays (such as a non-empty string) are excluded by its precondition. The docblock types the argument as an array, and the engine takes an array.
- Real networking is left out: DNS, TLS, connect and read timing, and how `fsockopen` fills `$errno`, which the code never reads. The environment supplies the connect result, the response bytes and the timed-out flag.
- `Sockets.Socket.WriteAll`: `fwrite` may write only part of the request, and the code ignores its return value. The model writes the whole request.
- `Sockets.Socket.GetContents`: a `false` return from `stream_get_contents` is not modelled; the read always yields a string.
- Only the scan that this one pattern denotes is modelled, not the general PCRE engine. `preg_replace` returning null on a backtrack-limit error is left out. Lines end at LF, as in PCRE's default newline convention.
- The `version` and `one_way` arguments of `doRequest` are accepted and unused, as in the code.

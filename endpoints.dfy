/**
 * The parsed target location of a request and the two things derived from
 * it before connecting: the port and the connect target (the host, prefixed
 * with `ssl://` so that the socket layer negotiates TLS for https).
 */
module Endpoints {
  import opened Results
  import opened PhpValues

  /**
   * What `parse_url` yields for the location. Host and scheme are always
   * present: the code indexes them without a guard.
   */
  datatype Endpoint = Endpoint(scheme: string, host: string, port: Option<int>)

  const HttpsScheme := "https"
  const HttpsPort := 443
  const HttpPort := 80
  const SslPrefix := "ssl://"

  /** `@$url_parts['port']`: the explicit port, or null when the location has none. */
  function PortValue(e: Endpoint): (v: Value)
    ensures v == Null <==> e.port.None?
    ensures e.port.Some? ==> v == Int(e.port.value)
  {
    match e.port
    case Some(p) => Int(p)
    case None => Null
  }

  /** The `?:` test on the port: a port is explicit when present and not 0. */
  predicate HasExplicitPort(e: Endpoint): (explicit: bool)
    ensures explicit <==> e.port.Some? && e.port.value != 0
  {
    Truthy(PortValue(e))
  }

  /** The scheme default: 443 when the scheme is exactly `https`, 80 otherwise. */
  function DefaultPort(scheme: string): (p: int)
    ensures p == HttpsPort <==> scheme == HttpsScheme
    ensures p == HttpPort <==> scheme != HttpsScheme
  {
    if scheme == HttpsScheme then HttpsPort else HttpPort
  }

  /** The port the connection is opened on; it is never 0 ("not given"). */
  function SelectPort(e: Endpoint): (p: int)
    ensures p != 0
    ensures HasExplicitPort(e) ==> e.port.Some? && p == e.port.value
    ensures !HasExplicitPort(e) ==> p == DefaultPort(e.scheme)
  {
    if HasExplicitPort(e) then e.port.value else DefaultPort(e.scheme)
  }

  /** The host handed to the socket layer: `ssl://host` exactly for https. */
  function ConnectTarget(e: Endpoint): (target: string)
    ensures e.scheme == HttpsScheme ==> target == SslPrefix + e.host
    ensures e.scheme != HttpsScheme ==> target == e.host
  {
    if e.scheme == HttpsScheme then SslPrefix + e.host else e.host
  }

  predicate AsksForTls(target: string)
  {
    |target| >= |SslPrefix| && target[..|SslPrefix|] == SslPrefix
  }

  /** An explicit port wins whatever the scheme. */
  lemma ExplicitPortOverridesScheme(e: Endpoint, scheme: string)
    requires HasExplicitPort(e)
    ensures SelectPort(e.(scheme := scheme)) == SelectPort(e) == e.port.value
  {
  }

  /**
   * TLS is requested exactly when the scheme is https (a host from a parsed
   * URL holds no '/', so it can never itself start with `ssl://`), and an
   * https location without a port is reached on 443.
   */
  lemma TlsExactlyForHttps(e: Endpoint)
    requires '/' !in e.host
    ensures AsksForTls(ConnectTarget(e)) <==> e.scheme == HttpsScheme
    ensures !HasExplicitPort(e) ==> (SelectPort(e) == HttpsPort <==> AsksForTls(ConnectTarget(e)))
  {
    TlsTargetHasSlash(e.host);
  }

  lemma TlsTargetHasSlash(target: string)
    ensures AsksForTls(target) ==> '/' in target
  {
    if AsksForTls(target) {
      assert target[5] == SslPrefix[5];
    }
  }

  /** The bare host is always the tail of the connect target. */
  lemma ConnectTargetEndsWithHost(e: Endpoint)
    ensures var t := ConnectTarget(e);
            |t| >= |e.host| && t[|t| - |e.host|..] == e.host
  {
  }
}

/**
 * Which transport the SOAP engine sends a request through. `SoapClient`
 * hands every request to its method `__doRequest`; a subclass takes over the
 * transport only by declaring a method of that name. PHP compares method
 * names without regard to ASCII case, but underscores count.
 *
 * `Client` declares `doRequest` (line 163), without the two leading
 * underscores, so it overrides nothing: the engine keeps its own transport,
 * and `doRequest` runs only when called directly. `ClientMethods` is the
 * class with the method named as intended.
 */
module Dispatch {

  const EngineHook := "__doRequest"

  /** The methods `Client` declares, in source order. */
  const ClientMethodsAsWritten: seq<string> := [
    "__construct", "getFunctions", "getLastRequest", "getLastResponse",
    "getLastRequestHeaders", "getLastResponseHeaders", "getTypes", "getCookies",
    "cookie", "location", "headers", "doRequest", "call", "SoapCall" ]

  /** The same methods with the transport named after the engine's hook. */
  const ClientMethods: seq<string> := ClientMethodsAsWritten[11 := EngineHook]

  function LowerChar(c: char): (l: char)
    ensures 'A' <= c <= 'Z' ==> l as int == c as int + 32
    ensures !('A' <= c <= 'Z') ==> l == c
  {
    if 'A' <= c <= 'Z' then (c as int + 32) as char else c
  }

  /** PHP's method-name comparison: equal up to ASCII case. */
  predicate SameMethodName(a: string, b: string)
  {
    |a| == |b| && forall i :: 0 <= i < |a| ==> LowerChar(a[i]) == LowerChar(b[i])
  }

  /** The engine's built-in HTTP transport, or the class's own `doRequest`. */
  datatype Transport = EngineTransport | ClientTransport

  /** The transport the engine uses for a class declaring `methods`. */
  function TransportUsed(methods: seq<string>): (t: Transport)
    ensures t == ClientTransport <==>
            exists i :: 0 <= i < |methods| && SameMethodName(methods[i], EngineHook)
  {
    if methods == [] then EngineTransport
    else if SameMethodName(methods[0], EngineHook) then ClientTransport
    else
      var t := TransportUsed(methods[1..]);
      assert forall i :: 1 <= i < |methods| ==> methods[i] == methods[1..][i - 1];
      t
  }

  /** A name that differs in length, or at its third character, is not the hook. */
  lemma NotHook(m: string)
    requires |m| != |EngineHook| || LowerChar(m[2]) != LowerChar(EngineHook[2])
    ensures !SameMethodName(m, EngineHook)
  {
  }

  /** As written, the engine never runs the client's transport. */
  lemma EngineIgnoresDoRequest()
    ensures TransportUsed(ClientMethodsAsWritten) == EngineTransport
  {
    var ms := ClientMethodsAsWritten;
    NotHook(ms[0]);
    forall i | 1 <= i < |ms| ensures !SameMethodName(ms[i], EngineHook) {
      NotHook(ms[i]);
    }
  }

  /** Named `__doRequest`, the client's transport is the one the engine uses. */
  lemma EngineUsesClientTransport()
    ensures TransportUsed(ClientMethods) == ClientTransport
  {
    assert SameMethodName(ClientMethods[11], EngineHook);
  }
}

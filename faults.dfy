/**
 * The two transport failures of `doRequest` and what PHP actually throws
 * for them.
 *
 * Both are raised with `new SoapFault(...)` written unqualified inside
 * namespace `Artisaninweb\SoapWrapper`, whose only import is `SoapClient`.
 * PHP resolves an unqualified class name against the imports first and
 * otherwise prefixes the current namespace, with no fallback to the global
 * namespace for classes; so the name denotes `Artisaninweb\SoapWrapper\SoapFault`,
 * a class that does not exist, and `new` throws an `Error` in place of the
 * intended `SoapFault`. `RaiseAsWritten` models the code as written;
 * `Raise` models it with `SoapFault` imported, which the rest of the model
 * uses.
 */
module Faults {

  /** The failures the transport distinguishes. */
  datatype Fault =
    | ConnectFault(location: string, errstr: string)
    | TimeoutFault(location: string)

  const ConnectPrefix := "Failed to connect to SOAP server ("
  const TimeoutPrefix := "HTTP timeout contacting "

  /** The fault string each failure is raised with. */
  function Message(f: Fault): (msg: string)
    ensures f.ConnectFault? ==>
              |msg| >= |ConnectPrefix| + |f.location| && msg[..|ConnectPrefix|] == ConnectPrefix
              && msg[|ConnectPrefix|..|ConnectPrefix| + |f.location|] == f.location
              && msg[|ConnectPrefix| + |f.location|..] == "): " + f.errstr
    ensures f.TimeoutFault? ==>
              |msg| >= |TimeoutPrefix| && msg[..|TimeoutPrefix|] == TimeoutPrefix
              && msg[|TimeoutPrefix|..] == f.location
  {
    match f
    case ConnectFault(location, errstr) => ConnectPrefix + location + "): " + errstr
    case TimeoutFault(location) => TimeoutPrefix + location
  }

  /** What a `throw new X(...)` statement delivers to the caller. */
  datatype Thrown =
    | SoapFaultThrown(faultCode: string, faultString: string)
    | ClassNotFound(className: string)

  const Namespace := "Artisaninweb\\SoapWrapper"
  const GlobalSoapFault := "SoapFault"

  /** The class names the file imports with `use` (line 5: only `SoapClient`). */
  const ImportsAsWritten: set<string> := {"SoapClient"}

  /** The classes that exist: the engine's two and this package's client. */
  const DeclaredClasses: set<string> := {"SoapClient", GlobalSoapFault, Namespace + "\\Client"}

  /** PHP's resolution of an unqualified class name inside `Namespace`. */
  function ResolveClassName(imports: set<string>, name: string): (cls: string)
    ensures name in imports ==> cls == name
    ensures name !in imports ==> |cls| > |Namespace| && cls[..|Namespace|] == Namespace
                                 && cls[|Namespace|] == '\\'
                                 && cls[|Namespace| + 1..] == name
  {
    if name in imports then name else Namespace + "\\" + name
  }

  /** `throw new SoapFault('Client', message)` under the given imports. */
  function ThrowNewSoapFault(imports: set<string>, f: Fault): (thrown: Thrown)
    ensures thrown.SoapFaultThrown? <==> ResolveClassName(imports, "SoapFault") in DeclaredClasses
    ensures thrown.SoapFaultThrown? ==> thrown == SoapFaultThrown("Client", Message(f))
    ensures thrown.ClassNotFound? ==> thrown.className == ResolveClassName(imports, "SoapFault")
  {
    var cls := ResolveClassName(imports, "SoapFault");
    if cls in DeclaredClasses then SoapFaultThrown("Client", Message(f)) else ClassNotFound(cls)
  }

  /** The raise as the code writes it. */
  function RaiseAsWritten(f: Fault): (thrown: Thrown)
    ensures !thrown.SoapFaultThrown?
  {
    NamespacedSoapFaultUndeclared();
    ThrowNewSoapFault(ImportsAsWritten, f)
  }

  /** The raise as intended: `SoapFault` imported beside `SoapClient`. */
  function Raise(f: Fault): (thrown: Thrown)
    ensures thrown == SoapFaultThrown("Client", Message(f))
  {
    ThrowNewSoapFault(ImportsAsWritten + {GlobalSoapFault}, f)
  }

  /** `Artisaninweb\SoapWrapper\SoapFault` is not among the declared classes. */
  lemma NamespacedSoapFaultUndeclared()
    ensures Namespace + "\\SoapFault" !in DeclaredClasses
  {
    assert (Namespace + "\\SoapFault")[|Namespace| + 1] == 'S';
    assert (Namespace + "\\Client")[|Namespace| + 1] == 'C';
  }

  /**
   * As written, neither failure ever reaches the caller as a SoapFault: the
   * name resolves to a class that is not declared.
   */
  lemma RaiseAsWrittenIsClassNotFound(f: Fault)
    ensures RaiseAsWritten(f) == ClassNotFound("Artisaninweb\\SoapWrapper\\SoapFault")
    ensures RaiseAsWritten(f).className !in DeclaredClasses
  {
    NamespacedSoapFaultUndeclared();
  }

  /**
   * With the import, each failure is a client-side SoapFault whose message
   * tells the two kinds apart and names the location; a connect fault's
   * message ends with the socket's error text.
   */
  lemma RaiseIsSoapFault(f: Fault)
    ensures Raise(f).SoapFaultThrown? && Raise(f).faultCode == "Client"
    ensures var msg := Raise(f).faultString;
            match f
            case ConnectFault(location, errstr) =>
              |msg| >= |ConnectPrefix| + |location| && msg[..|ConnectPrefix|] == ConnectPrefix
              && msg[|ConnectPrefix|..|ConnectPrefix| + |location|] == location
              && msg[|ConnectPrefix| + |location|..] == "): " + errstr
            case TimeoutFault(location) =>
              |msg| >= |TimeoutPrefix| && msg[..|TimeoutPrefix|] == TimeoutPrefix
              && msg[|TimeoutPrefix|..] == location
  {
  }

  /** The two messages never coincide, so a caller can tell the failures apart. */
  lemma MessagesDistinguishKinds(location: string, errstr: string, location': string)
    ensures Message(ConnectFault(location, errstr)) != Message(TimeoutFault(location'))
  {
    assert Message(ConnectFault(location, errstr))[0] == 'F';
    assert Message(TimeoutFault(location'))[0] == 'H';
  }
}

/**
 * Timeout defaulting and option filtering done by the client's constructor.
 * Timeout values are kept as opaque PHP values: only their truthiness
 * matters here, never their number of seconds.
 */
module Timeouts {
  import opened PhpValues

  const ConnectionTimeoutKey := "connection_timeout"
  const SocketTimeoutKey := "socket_timeout"

  /** The options argument must be an array or a falsy value. */
  predicate AcceptableOptions(options: Value)
  {
    options.Arr? || !Truthy(options)
  }

  /** `if (!$options) $options = [];` */
  function NormalizeOptions(options: Value): (m: map<string, Value>)
    requires AcceptableOptions(options)
    ensures !Truthy(options) ==> m == map[]
    ensures Truthy(options) ==> options.Arr? && m == options.entries && |m| > 0
  {
    if !Truthy(options) then map[] else options.entries
  }

  /** `@$options[key] ?: $default`: the option when truthy, the default otherwise. */
  function ResolveTimeout(options: map<string, Value>, key: string, default: Value): (t: Value)
    ensures key in options && Truthy(options[key]) ==> t == options[key]
    ensures (key !in options || !Truthy(options[key])) ==> t == default
  {
    var v := Lookup(options, key);
    if Truthy(v) then v else default
  }

  /** The options handed on to the SOAP engine: everything but `socket_timeout`. */
  function ParentOptions(options: Value): (m: map<string, Value>)
    requires AcceptableOptions(options)
    ensures forall k :: k in m <==> k in NormalizeOptions(options) && k != SocketTimeoutKey
    ensures forall k :: k in m ==> m[k] == NormalizeOptions(options)[k]
  {
    NormalizeOptions(options) - {SocketTimeoutKey}
  }

  /** Absent, null, false, 0, "" and "0" all fall back to the default. */
  lemma FalsyTimeoutFallsBack(options: map<string, Value>, key: string, default: Value)
    requires key !in options || options[key] in {Null, Bool(false), Int(0), Str(""), Str("0"), Arr(map[])}
    ensures ResolveTimeout(options, key, default) == default
  {
  }

  /** A resolved timeout is never falsy unless the default itself is. */
  lemma ResolvedTimeoutTruthy(options: map<string, Value>, key: string, default: Value)
    ensures Truthy(ResolveTimeout(options, key, default)) <==>
            (key in options && Truthy(options[key])) || Truthy(default)
  {
  }

  /**
   * The options passed on keep `connection_timeout` and every key other than
   * `socket_timeout`, each with its value unchanged.
   */
  lemma ParentOptionsKeepConnectionTimeout(entries: map<string, Value>, key: string)
    requires key in entries && key != SocketTimeoutKey
    ensures key in ParentOptions(Arr(entries))
    ensures ParentOptions(Arr(entries))[key] == entries[key]
    ensures SocketTimeoutKey !in ParentOptions(Arr(entries))
  {
  }

  /** Falsy options become the empty array, so nothing is passed on. */
  lemma FalsyOptionsBecomeEmpty(options: Value, key: string, default: Value)
    requires !Truthy(options)
    ensures ParentOptions(options) == map[]
    ensures ResolveTimeout(NormalizeOptions(options), key, default) == default
  {
  }
}

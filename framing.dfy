/**
 * The HTTP/1.0 POST request the client writes to the socket: a line shaped
 * as the Request-Line of section 5.1 of RFC 1945, with the absolute URL as
 * Request-URI; the Host header; the header that section 6.1.1 of SOAP 1.1
 * names, written `SoapAction` with its value unquoted; the Content-Type and
 * Content-Length (section 10.4 of RFC 1945) headers; an empty line; and the
 * SOAP envelope verbatim. PHP strings are byte strings; here each
 * `char` stands for one byte, so `strlen($s)` is `|s|`.
 *
 * Beside the framer sits a parser for the same layout; parsing a framed
 * request gives back its parts and a Content-Length equal to the length of
 * the body.
 */
module Framing {
  import opened Results

  const ContentType := "text/xml; charset=utf-8"
  const Crlf := "\r\n"

  predicate IsDigit(c: char)
  {
    '0' <= c <= '9'
  }

  predicate AllDigits(s: string)
  {
    forall i :: 0 <= i < |s| ==> IsDigit(s[i])
  }

  function DigitChar(d: nat): (c: char)
    requires d < 10
    ensures IsDigit(c) && c as int - '0' as int == d
  {
    (d + '0' as int) as char
  }

  /** How PHP renders a non-negative integer inside a string: decimal, no leading zeros. */
  function Decimal(n: nat): (r: string)
    ensures |r| >= 1 && AllDigits(r)
    ensures r[0] == '0' ==> n == 0 && r == "0"
  {
    if n < 10 then [DigitChar(n)] else Decimal(n / 10) + [DigitChar(n % 10)]
  }

  /** The number a string of decimal digits denotes. */
  function DigitsValue(s: string): (n: nat)
    requires AllDigits(s)
  {
    if s == [] then 0
    else DigitsValue(s[..|s| - 1]) * 10 + (s[|s| - 1] as int - '0' as int)
  }

  /** A Content-Length value read back gives the length that was written. */
  lemma {:induction false} DecimalRoundTrip(n: nat)
    ensures DigitsValue(Decimal(n)) == n
  {
    var r := Decimal(n);
    if n >= 10 {
      DecimalRoundTrip(n / 10);
      assert r[..|r| - 1] == Decimal(n / 10);
    }
  }

  /** The request exactly as `doRequest` frames it, one appended line at a time. */
  function FrameRequest(location: string, host: string, action: string, payload: string): (r: string)
    ensures |r| >= |payload| && r[|r| - |payload|..] == payload
  {
    ("POST " + location + " HTTP/1.0\r\n")
    + ("Host: " + host + "\r\n")
    + ("SoapAction: " + action + "\r\n")
    + ("Content-Type: " + ContentType + "\r\n")
    + ("Content-Length: " + Decimal(|payload|) + "\r\n")
    + "\r\n"
    + payload
  }

  lemma ContentTypeLine()
    ensures "Content-Type: " + ContentType + "\r\n" == "Content-Type: text/xml; charset=utf-8\r\n"
  {
  }

  /** The five header-block lines of a framed request, without their CRLFs. */
  function HeaderLines(location: string, host: string, action: string, length: nat): (lines: seq<string>)
  {
    [ "POST " + location + " HTTP/1.0",
      "Host: " + host,
      "SoapAction: " + action,
      "Content-Type: " + ContentType,
      "Content-Length: " + Decimal(length) ]
  }

  /** Lines, each terminated by CRLF. */
  function Lines(lines: seq<string>): (text: string)
  {
    if lines == [] then "" else Lines(lines[..|lines| - 1]) + (lines[|lines| - 1] + Crlf)
  }

  /** A framed request is its header lines, an empty line and the payload. */
  lemma FrameAsLines(location: string, host: string, action: string, payload: string)
    ensures FrameRequest(location, host, action, payload)
         == Lines(HeaderLines(location, host, action, |payload|)) + Crlf + payload
  {
    var ls := HeaderLines(location, host, action, |payload|);
    assert Lines(ls[..1]) == ls[0] + Crlf by { assert ls[..1][..0] == []; }
    assert Lines(ls[..2]) == Lines(ls[..1]) + (ls[1] + Crlf) by { assert ls[..2][..1] == ls[..1]; }
    assert Lines(ls[..3]) == Lines(ls[..2]) + (ls[2] + Crlf) by { assert ls[..3][..2] == ls[..2]; }
    assert Lines(ls[..4]) == Lines(ls[..3]) + (ls[3] + Crlf) by { assert ls[..4][..3] == ls[..3]; }
    assert Lines(ls) == Lines(ls[..4]) + (ls[4] + Crlf);
    assert "POST " + location + " HTTP/1.0\r\n" == ls[0] + Crlf;
    assert "Host: " + host + "\r\n" == ls[1] + Crlf;
    assert "SoapAction: " + action + "\r\n" == ls[2] + Crlf;
    assert "Content-Type: " + ContentType + "\r\n" == ls[3] + Crlf;
    assert "Content-Length: " + Decimal(|payload|) + "\r\n" == ls[4] + Crlf;
  }

  /** A header value that cannot break the line structure: no CR, no LF. */
  predicate FieldSafe(s: string)
  {
    '\r' !in s && '\n' !in s
  }

  datatype Split = Split(line: string, rest: string)

  /** Cut a string at its first CRLF. */
  function SplitLine(s: string): (r: Option<Split>)
    ensures r.Some? ==> s == r.value.line + Crlf + r.value.rest
  {
    if |s| < 2 then None
    else if s[0] == '\r' && s[1] == '\n' then Some(Split("", s[2..]))
    else match SplitLine(s[1..])
      case None => None
      case Some(sp) => Some(Split([s[0]] + sp.line, sp.rest))
  }

  /** A line without CR is cut off whole at its terminating CRLF. */
  lemma {:induction false} SplitLineOfLine(line: string, rest: string)
    requires '\r' !in line
    ensures SplitLine(line + Crlf + rest) == Some(Split(line, rest))
  {
    var s := line + Crlf + rest;
    if line != [] {
      assert s[1..] == line[1..] + Crlf + rest;
      SplitLineOfLine(line[1..], rest);
      assert [s[0]] + line[1..] == line;
    } else {
      assert s[2..] == rest;
    }
  }

  /** The rest of `s` after `prefix`, if `s` starts with it. */
  function After(prefix: string, s: string): (r: Option<string>)
    ensures r.Some? ==> s == prefix + r.value
  {
    if |prefix| <= |s| && s[..|prefix|] == prefix then Some(s[|prefix|..]) else None
  }

  /** What lies between `prefix` and `suffix`, if `s` is framed by them. */
  function Between(prefix: string, s: string, suffix: string): (r: Option<string>)
    ensures r.Some? ==> s == prefix + r.value + suffix
  {
    if |prefix| + |suffix| <= |s| && s[..|prefix|] == prefix && s[|s| - |suffix|..] == suffix
    then Some(s[|prefix|..|s| - |suffix|])
    else None
  }

  /** A request read back by a server: its fields, declared length and body. */
  datatype ParsedRequest = ParsedRequest(
    location: string, host: string, action: string, contentLength: nat, body: string)

  /** Reads a request laid out exactly as `FrameRequest` lays it out. */
  function ParseRequest(s: string): (parsed: Option<ParsedRequest>)
  {
    var requestLine :- SplitLine(s);
    var location :- Between("POST ", requestLine.line, " HTTP/1.0");
    ParseHeaders(location, requestLine.rest)
  }

  /** The Host and SoapAction headers, then the rest. */
  function ParseHeaders(location: string, s: string): (parsed: Option<ParsedRequest>)
  {
    var hostLine :- SplitLine(s);
    var host :- After("Host: ", hostLine.line);
    var actionLine :- SplitLine(hostLine.rest);
    var action :- After("SoapAction: ", actionLine.line);
    ParseEntity(location, host, action, actionLine.rest)
  }

  /** The Content-Type header, then the rest. */
  function ParseEntity(location: string, host: string, action: string, s: string): (parsed: Option<ParsedRequest>)
  {
    var typeLine :- SplitLine(s);
    if typeLine.line == "Content-Type: " + ContentType
    then ParseBody(location, host, action, typeLine.rest)
    else None
  }

  /** The Content-Length header, the empty line and the body. */
  function ParseBody(location: string, host: string, action: string, s: string): (parsed: Option<ParsedRequest>)
  {
    var lengthLine :- SplitLine(s);
    var digits :- After("Content-Length: ", lengthLine.line);
    var blank :- SplitLine(lengthLine.rest);
    if blank.line == "" && AllDigits(digits)
    then Some(ParsedRequest(location, host, action, DigitsValue(digits), blank.rest))
    else None
  }

  lemma Regroup(a1: string, a2: string, a3: string, a4: string, a5: string, a6: string, p: string)
    ensures a1 + a2 + a3 + a4 + a5 + a6 + p == a1 + (a2 + (a3 + (a4 + (a5 + (a6 + p)))))
  {
  }

  lemma AfterPrefix(prefix: string, x: string)
    ensures After(prefix, prefix + x) == Some(x)
  {
    assert (prefix + x)[..|prefix|] == prefix;
  }

  lemma BetweenAffixes(prefix: string, x: string, suffix: string)
    ensures Between(prefix, prefix + x + suffix, suffix) == Some(x)
  {
    var s := prefix + x + suffix;
    assert s[..|prefix|] == prefix;
    assert s[|s| - |suffix|..] == suffix;
    assert s[|prefix|..|s| - |suffix|] == x;
  }

  /** A framed request, regrouped line by line from the front. */
  lemma FrameRequestLayout(location: string, host: string, action: string, payload: string)
    ensures var ls := HeaderLines(location, host, action, |payload|);
              FrameRequest(location, host, action, payload)
              == ls[0] + Crlf + (ls[1] + Crlf + (ls[2] + Crlf + (ls[3] + Crlf + (ls[4] + Crlf + (Crlf + payload)))))
  {
    var ls := HeaderLines(location, host, action, |payload|);
    assert "POST " + location + " HTTP/1.0\r\n" == ls[0] + Crlf;
    assert "Host: " + host + "\r\n" == ls[1] + Crlf;
    assert "SoapAction: " + action + "\r\n" == ls[2] + Crlf;
    assert "Content-Type: " + ContentType + "\r\n" == ls[3] + Crlf;
    assert "Content-Length: " + Decimal(|payload|) + "\r\n" == ls[4] + Crlf;
    Regroup(ls[0] + Crlf, ls[1] + Crlf, ls[2] + Crlf, ls[3] + Crlf, ls[4] + Crlf, Crlf, payload);
  }

  /** No header line of a request with safe fields contains a CR. */
  lemma HeaderLinesHaveNoCr(location: string, host: string, action: string, length: nat)
    requires FieldSafe(location) && FieldSafe(host) && FieldSafe(action)
    ensures forall l :: l in HeaderLines(location, host, action, length) ==> FieldSafe(l)
  {
    var digits := Decimal(length);
    assert FieldSafe(digits) by {
      assert forall i :: 0 <= i < |digits| ==> IsDigit(digits[i]);
    }
  }

  lemma LengthLineSafe(length: nat)
    ensures FieldSafe("Content-Length: " + Decimal(length))
  {
    var digits := Decimal(length);
    assert FieldSafe(digits) by {
      assert forall i :: 0 <= i < |digits| ==> IsDigit(digits[i]);
    }
  }

  /** The Content-Length line, the empty line and the payload read back. */
  lemma ParseBodyOfFrame(location: string, host: string, action: string, digits: string, payload: string)
    requires AllDigits(digits) && FieldSafe("Content-Length: " + digits)
    ensures ParseBody(location, host, action, "Content-Length: " + digits + Crlf + (Crlf + payload))
         == Some(ParsedRequest(location, host, action, DigitsValue(digits), payload))
  {
    var line := "Content-Length: " + digits;
    var body := Crlf + payload;
    SplitLineOfLine(line, body);
    AfterPrefix("Content-Length: ", digits);
    SplitLineOfLine("", payload);
    assert "" + Crlf + payload == body;
    ParseBodyOfParts(location, host, action, line + Crlf + body, line, digits, body, payload);
  }

  lemma ParseBodyOfParts(location: string, host: string, action: string, s: string,
                         line: string, digits: string, body: string, payload: string)
    requires SplitLine(s) == Some(Split(line, body))
    requires After("Content-Length: ", line) == Some(digits)
    requires SplitLine(body) == Some(Split("", payload))
    requires AllDigits(digits)
    ensures ParseBody(location, host, action, s)
         == Some(ParsedRequest(location, host, action, DigitsValue(digits), payload))
  {
  }

  lemma ParseEntityOfFrame(location: string, host: string, action: string, rest: string)
    ensures ParseEntity(location, host, action, "Content-Type: " + ContentType + Crlf + rest)
         == ParseBody(location, host, action, rest)
  {
    SplitLineOfLine("Content-Type: " + ContentType, rest);
  }

  lemma ParseHeadersOfFrame(location: string, host: string, action: string, rest: string)
    requires FieldSafe(host) && FieldSafe(action)
    ensures ParseHeaders(location, "Host: " + host + Crlf + ("SoapAction: " + action + Crlf + rest))
         == ParseEntity(location, host, action, rest)
  {
    SplitLineOfLine("Host: " + host, "SoapAction: " + action + Crlf + rest);
    SplitLineOfLine("SoapAction: " + action, rest);
    AfterPrefix("Host: ", host);
    AfterPrefix("SoapAction: ", action);
  }

  /**
   * Round trip: a server reading the framed request recovers the location,
   * the bare host, the action and the payload, and the declared
   * Content-Length is the payload's byte length.
   */
  lemma FrameRequestRoundTrip(location: string, host: string, action: string, payload: string)
    requires FieldSafe(location) && FieldSafe(host) && FieldSafe(action)
    ensures ParseRequest(FrameRequest(location, host, action, payload))
         == Some(ParsedRequest(location, host, action, |payload|, payload))
  {
    var ls := HeaderLines(location, host, action, |payload|);
    var entity := ls[3] + Crlf + (ls[4] + Crlf + (Crlf + payload));
    var headers := ls[1] + Crlf + (ls[2] + Crlf + entity);
    FrameRequestLayout(location, host, action, payload);
    assert FrameRequest(location, host, action, payload) == ls[0] + Crlf + headers;
    SplitLineOfLine(ls[0], headers);
    BetweenAffixes("POST ", location, " HTTP/1.0");
    ParseHeadersOfFrame(location, host, action, entity);
    ParseEntityOfFrame(location, host, action, ls[4] + Crlf + (Crlf + payload));
    LengthLineSafe(|payload|);
    ParseBodyOfFrame(location, host, action, Decimal(|payload|), payload);
    DecimalRoundTrip(|payload|);
  }

  /**
   * An example: the 6-byte envelope `<xml/>` is framed with the
   * header line `Content-Length: 6`.
   */
  lemma FrameRequestExample()
    ensures var ls := HeaderLines("http://example.com/svc", "example.com", "DoThing", 6);
            && ls[4] == "Content-Length: 6"
            && FrameRequest("http://example.com/svc", "example.com", "DoThing", "<xml/>")
               == Lines(ls) + Crlf + "<xml/>"
  {
    assert Decimal(6) == "6";
    assert |"<xml/>"| == 6;
    FrameAsLines("http://example.com/svc", "example.com", "DoThing", "<xml/>");
  }
}

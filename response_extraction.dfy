/**
 * Recovering the SOAP envelope from the raw HTTP response. The client
 * deletes the match of the multi-line, dot-all PCRE pattern `\A.*?^\r$`:
 * the shortest prefix that ends in a line made of a single CR. With `m`,
 * `^` holds at the start or after an LF and `$` before an LF or at the end,
 * and `$` consumes nothing, so the LF after that CR stays in the result.
 * `\A` anchors the match at offset 0, so at most one prefix is removed.
 */
module ResponseExtraction {
  import opened Results
  import Framing

  /** Offset `i` holds a CR that forms a line of its own. */
  predicate IsCrLine(s: string, i: int)
  {
    0 <= i < |s| && s[i] == '\r'
    && (i == 0 || s[i - 1] == '\n')
    && (i + 1 == |s| || s[i + 1] == '\n')
  }

  /** The first lone-CR line at or after `from`. */
  function FindCrLine(s: string, from: nat): (r: Option<nat>)
    requires from <= |s|
    ensures r.Some? ==> from <= r.value < |s| && IsCrLine(s, r.value)
                        && forall j :: from <= j < r.value ==> !IsCrLine(s, j)
    ensures r.None? ==> forall j :: from <= j < |s| ==> !IsCrLine(s, j)
    decreases |s| - from
  {
    if from == |s| then None
    else if IsCrLine(s, from) then Some(from)
    else FindCrLine(s, from + 1)
  }

  /**
   * The response with its status line and headers removed: everything after
   * the first lone-CR line, or the whole response when it has none.
   */
  function StripHeaders(response: string): (body: string)
    ensures |body| <= |response| && body == response[|response| - |body|..]
    ensures (forall j :: 0 <= j < |response| ==> !IsCrLine(response, j)) ==> body == response
    ensures forall i :: IsCrLine(response, i) && (forall j :: 0 <= j < i ==> !IsCrLine(response, j))
                        ==> body == response[i + 1..]
  {
    match FindCrLine(response, 0)
    case None => response
    case Some(i) => response[i + 1..]
  }

  /** A response without any CR passes through unchanged. */
  lemma NoCrPassesThrough(response: string)
    requires '\r' !in response
    ensures StripHeaders(response) == response
  {
  }

  /** Header lines that can end a header block only at their own CRLF. */
  predicate SafeLines(lines: seq<string>)
  {
    forall k :: 0 <= k < |lines| ==> lines[k] != "" && Framing.FieldSafe(lines[k])
  }

  /**
   * In CRLF-terminated non-empty lines without CR or LF of their own, every
   * CR follows a non-LF character, so none forms a line of its own.
   */
  lemma {:induction false} NoCrLineInLines(lines: seq<string>, rest: string)
    requires SafeLines(lines)
    ensures forall j :: 0 <= j < |Framing.Lines(lines)| ==> !IsCrLine(Framing.Lines(lines) + rest, j)
    ensures lines != [] ==> Framing.Lines(lines)[|Framing.Lines(lines)| - 1] == '\n'
  {
    if lines != [] {
      var init := lines[..|lines| - 1];
      var last := lines[|lines| - 1];
      var prefix := Framing.Lines(init);
      var line := last + Framing.Crlf;
      assert Framing.Lines(lines) == prefix + line;
      assert SafeLines(init) by {
        forall k | 0 <= k < |init| ensures init[k] != "" && Framing.FieldSafe(init[k]) {
          assert init[k] == lines[k];
        }
      }
      NoCrLineInLines(init, line + rest);
      assert prefix + line + rest == prefix + (line + rest);
      var s := prefix + line + rest;
      forall j | |prefix| <= j < |prefix| + |line| ensures !IsCrLine(s, j) {
        var k := j - |prefix|;
        assert s[j] == line[k];
        if k < |last| {
          assert line[k] == last[k] && last[k] in last;
        } else if k == |last| {
          assert s[j - 1] == last[|last| - 1] && last[|last| - 1] in last;
        }
      }
    }
  }

  /**
   * A well-formed response, i.e. status and header lines, the empty line and
   * the body, is stripped down to the body with the LF of the empty line
   * still in front of it.
   */
  lemma StripWellFormedResponse(lines: seq<string>, body: string)
    requires SafeLines(lines)
    ensures StripHeaders(Framing.Lines(lines) + Framing.Crlf + body) == "\n" + body
  {
    var head := Framing.Lines(lines);
    var s := head + Framing.Crlf + body;
    assert s == head + (Framing.Crlf + body);
    NoCrLineInLines(lines, Framing.Crlf + body);
    var k := |head|;
    assert s[k] == '\r' && s[k + 1] == '\n';
    assert IsCrLine(s, k);
    assert forall j :: 0 <= j < k ==> !IsCrLine(s, j);
    assert s[k + 1..] == "\n" + body;
  }

  /**
   * Echo: a peer that sends back the very bytes the client framed yields the
   * payload behind one LF, since the request's header block is well formed.
   */
  lemma StripFramedRequest(location: string, host: string, action: string, payload: string)
    requires Framing.FieldSafe(location) && Framing.FieldSafe(host) && Framing.FieldSafe(action)
    ensures StripHeaders(Framing.FrameRequest(location, host, action, payload)) == "\n" + payload
  {
    var lines := Framing.HeaderLines(location, host, action, |payload|);
    Framing.FrameAsLines(location, host, action, payload);
    Framing.HeaderLinesHaveNoCr(location, host, action, |payload|);
    assert SafeLines(lines) by {
      forall k | 0 <= k < |lines| ensures lines[k] != "" && Framing.FieldSafe(lines[k]) {
        assert lines[k] in lines;
        assert |lines[k]| >= 6;
      }
    }
    StripWellFormedResponse(lines, payload);
  }

  /**
   * Only one prefix is removed: the result may itself still start with a
   * lone-CR line.
   */
  lemma StripsOnlyOnce()
    ensures StripHeaders("\r\n\r\n<a/>") == "\n\r\n<a/>"
    ensures IsCrLine(StripHeaders("\r\n\r\n<a/>"), 1)
  {
  }

  /** A header block ended by a bare LF blank line (no CR) is not recognised. */
  lemma LfOnlyHeadersPassThrough()
    ensures StripHeaders("HTTP/1.0 200 OK\n\n<a/>") == "HTTP/1.0 200 OK\n\n<a/>"
  {
    NoCrPassesThrough("HTTP/1.0 200 OK\n\n<a/>");
  }
}

/** The one-shot request parser of the earlier revision: the whole request
    is held in one buffer and parsed in a single pass into a Request, the
    body being everything after the blank line.  The request line and the
    header fields follow the same grammar as the incremental parser, whose
    functions this module reuses; what differs is that a buffer ending right
    after the request line is accepted, that the body is stored as the body
    (not as raw bytes awaiting Content-Length), and that the result is a
    return code, 0 for success. */
module OneShotParser {
  import opened Wrappers
  import opened Strings
  import opened Streams
  import opened Http
  import opened HttpRequest

  /** Webserv::_parseRequest(r, request), on the request's fields before
      the call. */
  function OneShotSpec(r: string, s: Snapshot): (res: (int, Snapshot))
    ensures res.0 == 0 || res.0 == 1
    ensures res.1.raw == s.raw && res.1.status == s.status
    ensures res.1.contentLength == s.contentLength
  {
    var rd := GetLine(Open(r), '\n');
    var line := rd.value.GetOr("");
    var (rc, s1) := RequestLineSpec(line, s);
    if rc != 0 then (1, s1)
    else if rd.st.eof then (0, s1)
    else
      var hs := ScanHeaders(rd.st, s1.headers);
      if !hs.ok then (1, s1.(headers := hs.headers))
      else
        var rest := if hs.st.Ok() then GetLine(hs.st, '\0') else Read(hs.st, None);
        var s2 := s1.(headers := hs.headers, body := rest.value.GetOr(s1.body));
        (if rest.st.eof then 0 else 1, s2)
  }

  /** A buffer holding only a request line, without its line feed, is
      accepted with no header read: the result is the target's parse. */
  lemma RequestLineOnly(m: Method, target: string, s: Snapshot)
    requires m != Undefined && '\n' !in target
    ensures OneShotSpec(MethodName(m) + " " + target + VersionSuffix, s)
      == TargetSpec(target, s.(httpMethod := m))
  {
    var line := MethodName(m) + " " + target + VersionSuffix;
    assert '\n' !in MethodName(m);
    assert '\n' !in line;
    GetLineToEnd(Open(line), '\n');
    assert line[0..] == line;
    RequestLineRoundTrip(m, target, s);
  }

  /** The body stage on a stream holding body and nothing else: the body
      is stored verbatim and the parse succeeds, unless it holds a NUL byte. */
  lemma OneShotBodyOnText(st: Stream, s1: Snapshot, headers: StrMap)
    requires st.Valid() && st.Good()
    ensures var rest := GetLine(st, '\0');
      var body := st.text[st.pos..];
      && (rest.st.eof <==> '\0' !in body)
      && ('\0' !in body ==> rest.value == Some(body))
  {
    if '\0' in st.text[st.pos..] {
      GetLineStopsAtDelimiter(st, '\0');
    } else {
      GetLineToEnd(st, '\0');
    }
  }

  /** The header loop over a well-formed request ends on the blank line
      with every field stored. */
  lemma OneShotReachesBody(m: Method, target: string, fields: seq<(string, string)>,
                           body: string, s: Snapshot)
    requires m != Undefined && StartsWith(target, "/") && '\n' !in target
    requires forall i :: 0 <= i < |fields| ==> PlainField(fields[i])
    ensures var raw := WireRequest(m, target, fields, body);
      var line := MethodName(m) + " " + target + VersionSuffix;
      var rd := GetLine(Open(raw), '\n');
      var s1 := TargetSpec(target, s.(httpMethod := m)).1;
      && rd.value == Some(line) && rd.st.Valid() && rd.st.Good()
      && RequestLineSpec(line, s) == (0, s1)
      && ScanHeaders(rd.st, s1.headers).ok
      && ScanHeaders(rd.st, s1.headers).headers == AddFields(s.headers, fields)
      && ScanHeaders(rd.st, s1.headers).st == Open(raw).(pos := |raw| - |body|)
  {
    var raw := WireRequest(m, target, fields, body);
    var line := MethodName(m) + " " + target + VersionSuffix;
    var rest := HeaderLines(fields) + "\r\n" + body;
    assert raw == line + "\n" + rest;
    assert raw[..|line| + 1] == line + "\n";
    assert '\n' !in MethodName(m);
    assert '\n' !in line;
    GetLineUpTo(Open(raw), '\n', line);
    RequestLineRoundTrip(m, target, s);
    TargetAcceptance(target, s.(httpMethod := m));
    var st := Open(raw).(pos := |line| + 1);
    assert st.text[st.pos..] == rest;
    var s1 := TargetSpec(target, s.(httpMethod := m)).1;
    assert s1.headers == s.headers;
    ScanHeaderLines(st, s1.headers, fields, body);
  }

  /** A request as a client writes it is parsed back: the method, the
      path and query, every header field (a later one overwriting), and the
      body verbatim; it fails exactly when the body holds a NUL byte. */
  lemma OneShotWireRequest(m: Method, target: string, fields: seq<(string, string)>,
                           body: string, s: Snapshot)
    requires m != Undefined && StartsWith(target, "/") && '\n' !in target
    requires forall i :: 0 <= i < |fields| ==> PlainField(fields[i])
    ensures var res := OneShotSpec(WireRequest(m, target, fields, body), s);
      var t := TargetSpec(target, s.(httpMethod := m)).1;
      && res.1.httpMethod == m && res.1.path == t.path && res.1.params == t.params
      && res.1.headers == AddFields(s.headers, fields)
      && (res.0 == 0 <==> '\0' !in body)
      && ('\0' !in body ==> res.1.body == body)
  {
    var raw := WireRequest(m, target, fields, body);
    OneShotReachesBody(m, target, fields, body, s);
    var line := MethodName(m) + " " + target + VersionSuffix;
    var rd := GetLine(Open(raw), '\n');
    var s1 := TargetSpec(target, s.(httpMethod := m)).1;
    assert !rd.st.eof;
    var hs := ScanHeaders(rd.st, s1.headers);
    assert hs.st.text[hs.st.pos..] == body;
    OneShotBodyOnText(hs.st, s1, hs.headers);
  }

  /** Webserv::_parseRequest: the request line, then (unless the buffer
      ended there) the header lines up to "\r", then the rest up to a NUL
      byte as the body. */
  method ParseRequest(r: string, request: Request) returns (rc: int)
    modifies request
    ensures (rc, request.State()) == OneShotSpec(r, old(request.State()))
  {
    var st := Open(r);
    var line := "";
    var rd := GetLine(st, '\n');
    st := rd.st;
    line := rd.value.GetOr(line);
    var lineRc := request.ParseRequestLine(line);
    if lineRc != 0 {
      return 1;
    } else if st.eof {
      return 0;
    }
    ghost var s1 := request.State();
    ghost var goal := ScanHeaders(st, request.headers);
    while true
      invariant st.Valid() && st.text == r
      invariant ScanHeaders(st, request.headers) == goal
      invariant request.State() == s1.(headers := request.headers)
      decreases |st.text| - st.pos
    {
      rd := GetLine(st, '\n');
      if !rd.st.Ok() || rd.value.value == "\r" {
        st := rd.st;
        break;
      }
      st := rd.st;
      line := rd.value.value;
      var d := Find(line, ": ");
      if d.None? {
        return 1;
      }
      var kv := HeaderField(line, d.value);
      request.headers := request.headers[kv.0 := kv.1];
    }
    assert goal == HeaderScan(true, st, request.headers);
    var rest := Read(st, None);
    if st.Ok() {
      rest := GetLine(st, '\0');
      request.body := rest.value.GetOr(request.body);
    }
    if rest.st.eof {
      return 0;
    }
    return 1;
  }
}

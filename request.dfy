/** The incremental request parser: a Request accumulates the bytes read
    from a client in `raw`; once they hold a blank line, parseRequest reads
    the request line, the header fields and the start of the body, and
    getRequestBody then compares the body bytes with Content-Length.

    The grammar is narrower than section 3 of RFC 7230: the request line is
    split at its first and last space and must end in " HTTP/1.1\r", a
    header field is split at the first ": " (no optional white space), and
    the body must be exactly Content-Length bytes long. */
module HttpRequest {
  import opened Wrappers
  import opened Strings
  import opened Streams
  import opened Http

  type StrMap = map<string, string>

  /** Every field of a Request, as one value. */
  datatype Snapshot = Snapshot(
    raw: string,
    httpMethod: Method,
    path: string,
    params: StrMap,
    headers: StrMap,
    body: string,
    status: RqStatus,
    contentLength: nat)

  /** What a request line must end with, from its last space on. */
  const VersionSuffix: string := " HTTP/1.1\r"

  // ---------------------------------------------------------------------
  // Query parameters

  /** The key of a query piece: the text before its first '=', or the whole
      piece when it has none. */
  function PieceKey(p: string): string
  {
    match FindChar(p, '=', 0)
    case Some(i) => p[..i]
    case None => p
  }

  /** The value of a query piece: the text after its first '=', or "". */
  function PieceValue(p: string): string
  {
    match FindChar(p, '=', 0)
    case Some(i) => p[i + 1..]
    case None => ""
  }

  /** params updated with each piece in turn. */
  function MergePieces(params: StrMap, pieces: seq<string>): StrMap
    decreases |pieces|
  {
    if pieces == [] then params
    else MergePieces(params[PieceKey(pieces[0]) := PieceValue(pieces[0])], pieces[1..])
  }

  /** The index of the last piece whose key is k. */
  function LastKeyIndex(pieces: seq<string>, k: string): (r: Option<nat>)
    ensures r.Some? ==> r.value < |pieces| && PieceKey(pieces[r.value]) == k
    ensures r.Some? ==> forall j :: r.value < j < |pieces| ==> PieceKey(pieces[j]) != k
    ensures r.None? ==> forall j :: 0 <= j < |pieces| ==> PieceKey(pieces[j]) != k
    decreases |pieces|
  {
    if pieces == [] then None
    else if PieceKey(pieces[|pieces| - 1]) == k then Some(|pieces| - 1)
    else LastKeyIndex(pieces[..|pieces| - 1], k)
  }

  /** The last piece with key k, seen from the second piece on. */
  lemma LastKeyIndexTail(pieces: seq<string>, k: string)
    requires pieces != []
    ensures LastKeyIndex(pieces[1..], k).Some? ==>
      LastKeyIndex(pieces, k) == Some(LastKeyIndex(pieces[1..], k).value + 1)
    ensures LastKeyIndex(pieces[1..], k).None? && PieceKey(pieces[0]) == k ==>
      LastKeyIndex(pieces, k) == Some(0)
    ensures LastKeyIndex(pieces[1..], k).None? && PieceKey(pieces[0]) != k ==>
      LastKeyIndex(pieces, k).None?
  {
    var rest := pieces[1..];
    assert forall j :: 0 <= j < |rest| ==> rest[j] == pieces[j + 1];
  }

  /** A key is present after merging exactly when it was present before or
      some piece has it, and a repeated key keeps the value of its last piece. */
  lemma {:induction false} MergeLastWins(params: StrMap, pieces: seq<string>, k: string)
    ensures k in MergePieces(params, pieces) <==>
      (k in params || exists i :: 0 <= i < |pieces| && PieceKey(pieces[i]) == k)
    ensures LastKeyIndex(pieces, k).Some? ==>
      MergePieces(params, pieces)[k] == PieceValue(pieces[LastKeyIndex(pieces, k).value])
    ensures LastKeyIndex(pieces, k).None? && k in params ==>
      MergePieces(params, pieces)[k] == params[k]
    decreases |pieces|
  {
    if pieces != [] {
      var p0 := pieces[0];
      var rest := pieces[1..];
      var next := params[PieceKey(p0) := PieceValue(p0)];
      MergeLastWins(next, rest, k);
      LastKeyIndexTail(pieces, k);
      assert forall j :: 0 <= j < |rest| ==> rest[j] == pieces[j + 1];
    }
  }

  /** The `while (getline(query, piece, '&'))` loop of _parseTarget. */
  function QueryLoop(st: Stream, params: StrMap): (r: (Stream, StrMap))
    requires st.Valid()
    ensures r.0.Valid() && !r.0.Ok()
    ensures st.Ok() ==> r.0.eof
    decreases |st.text| - st.pos
  {
    var rd := GetLine(st, '&');
    if !rd.st.Ok() then (rd.st, params)
    else QueryLoop(rd.st, params[PieceKey(rd.value.value) := PieceValue(rd.value.value)])
  }

  /** The loop merges the '&'-separated pieces of the query, in order. */
  lemma {:induction false} QueryLoopMergesTokens(st: Stream, params: StrMap)
    requires st.Valid()
    ensures QueryLoop(st, params).1 == MergePieces(params, Tokens(st, '&'))
    decreases |st.text| - st.pos
  {
    var rd := GetLine(st, '&');
    if rd.st.Ok() {
      var p := rd.value.value;
      QueryLoopMergesTokens(rd.st, params[PieceKey(p) := PieceValue(p)]);
      assert Tokens(st, '&') == [p] + Tokens(rd.st, '&');
      assert ([p] + Tokens(rd.st, '&'))[1..] == Tokens(rd.st, '&');
    }
  }

  // ---------------------------------------------------------------------
  // Request line and target

  /** _parseTarget on a request target. */
  function TargetSpec(target: string, s: Snapshot): (r: (int, Snapshot))
    ensures r.1 == s.(path := r.1.path, params := r.1.params)
  {
    if target == [] || target[0] != '/' then (1, s)
    else
      match FindChar(target, '?', 0)
      case None => (0, s.(path := target))
      case Some(q) =>
        var (st, params) := QueryLoop(Open(target[q + 1..]), s.params);
        (if st.eof then 0 else 1, s.(path := target[..q], params := params))
  }

  /** A target is accepted exactly when it is non-empty and starts with '/';
      without a '?' the whole target is the path. */
  lemma TargetAcceptance(target: string, s: Snapshot)
    ensures TargetSpec(target, s).0 == 0 <==> StartsWith(target, "/")
    ensures StartsWith(target, "/") && '?' !in target ==>
      TargetSpec(target, s).1 == s.(path := target)
  {
    if StartsWith(target, "/") && '?' in target {
      var q := FindChar(target, '?', 0).value;
      QueryLoopMergesTokens(Open(target[q + 1..]), s.params);
    }
  }

  /** With a '?', the path is the target up to its first '?', and the
      query after it is merged into the parameters piece by piece. */
  lemma TargetQuery(target: string, s: Snapshot)
    requires StartsWith(target, "/") && '?' in target
    ensures var q := FindChar(target, '?', 0).value;
      && '?' !in TargetSpec(target, s).1.path
      && target == TargetSpec(target, s).1.path + "?" + target[q + 1..]
      && TargetSpec(target, s).1.params == MergePieces(s.params, Tokens(Open(target[q + 1..]), '&'))
  {
    var q := FindChar(target, '?', 0).value;
    SplitAtFirst(target, q);
    QueryLoopMergesTokens(Open(target[q + 1..]), s.params);
    TargetParts(target, s, q);
  }

  /** The path and parameters _parseTarget leaves for a target whose first
      '?' is at q. */
  lemma TargetParts(target: string, s: Snapshot, q: nat)
    requires StartsWith(target, "/") && FindChar(target, '?', 0) == Some(q)
    ensures TargetSpec(target, s).1.path == target[..q]
    ensures TargetSpec(target, s).1.params == QueryLoop(Open(target[q + 1..]), s.params).1
  {
  }

  /** Cutting a text at its first '?' leaves no '?' before the cut. */
  lemma SplitAtFirst(target: string, q: nat)
    requires q < |target| && target[q] == '?'
    requires forall i :: 0 <= i < q ==> target[i] != '?'
    ensures '?' !in target[..q]
    ensures target == target[..q] + "?" + target[q + 1..]
  {
    var path := target[..q];
    assert forall i :: 0 <= i < |path| ==> path[i] == target[i];
    assert target == target[..q] + target[q..q + 1] + target[q + 1..];
  }

  /** The text between the first and the last space of a request line. */
  function TargetOf(line: string): string
  {
    match (FindChar(line, ' ', 0), RFindChar(line, ' '))
    case (Some(i), Some(j)) => if i < j then line[i + 1..j] else ""
    case _ => ""
  }

  /** _parseRequestLine: the method is stored before the target is parsed. */
  function RequestLineSpec(line: string, s: Snapshot): (r: (int, Snapshot))
    ensures r.1 == s.(httpMethod := r.1.httpMethod, path := r.1.path, params := r.1.params)
  {
    var sp1 := FindChar(line, ' ', 0);
    var sp2 := RFindChar(line, ' ');
    if sp1 == sp2 || line[sp2.value..] != VersionSuffix then (1, s)
    else
      match MethodFromName(line[..sp1.value])
      case None => (1, s)
      case Some(m) => TargetSpec(line[sp1.value + 1..sp2.value], s.(httpMethod := m))
  }

  /** A request line built from a method, any target and " HTTP/1.1\r" is
      split back into exactly that method and target. */
  lemma RequestLineRoundTrip(m: Method, target: string, s: Snapshot)
    requires m != Undefined
    ensures RequestLineSpec(MethodName(m) + " " + target + VersionSuffix, s)
      == TargetSpec(target, s.(httpMethod := m))
  {
    var name := MethodName(m);
    var line := name + " " + target + VersionSuffix;
    var last := |name| + 1 + |target|;
    assert line[|name|] == ' ';
    assert forall i :: 0 <= i < |name| ==> line[i] == name[i];
    assert FindChar(line, ' ', 0) == Some(|name|);
    assert line[last] == ' ';
    assert forall i :: last < i < |line| ==> line[i] == VersionSuffix[i - last];
    assert RFindChar(line, ' ') == Some(last);
    assert line[..|name|] == name;
    assert line[|name| + 1..last] == target;
    assert line[last..] == VersionSuffix;
  }

  /** An accepted request line is the stored method's name, a space, a
      target starting with '/', and " HTTP/1.1\r". */
  lemma RequestLineShape(line: string, s: Snapshot)
    requires RequestLineSpec(line, s).0 == 0
    ensures var m := RequestLineSpec(line, s).1.httpMethod;
      && m != Undefined
      && line == MethodName(m) + " " + TargetOf(line) + VersionSuffix
      && StartsWith(TargetOf(line), "/")
  {
    var sp1, sp2 := RequestLineCuts(line, s);
    SplitAtSpaces(line, sp1, sp2);
    TargetAcceptance(line[sp1 + 1..sp2], s.(httpMethod := MethodFromName(line[..sp1]).value));
  }

  /** Where an accepted request line is cut: its first and last spaces. */
  lemma RequestLineCuts(line: string, s: Snapshot) returns (sp1: nat, sp2: nat)
    requires RequestLineSpec(line, s).0 == 0
    ensures sp1 < sp2 < |line| && line[sp1] == ' ' && line[sp2..] == VersionSuffix
    ensures TargetOf(line) == line[sp1 + 1..sp2]
    ensures MethodFromName(line[..sp1]).Some?
    ensures RequestLineSpec(line, s).1.httpMethod == MethodFromName(line[..sp1]).value
    ensures TargetSpec(line[sp1 + 1..sp2], s.(httpMethod := MethodFromName(line[..sp1]).value)).0 == 0
  {
    sp1 := FindChar(line, ' ', 0).value;
    sp2 := RFindChar(line, ' ').value;
  }

  /** A text cut at two of its positions, the first a space. */
  lemma SplitAtSpaces(line: string, i: nat, j: nat)
    requires i < j <= |line| && line[i] == ' '
    ensures line == line[..i] + " " + line[i + 1..j] + line[j..]
  {
    assert line[i..i + 1] == " ";
    assert line == line[..i] + line[i..i + 1] + line[i + 1..j] + line[j..];
  }

  // ---------------------------------------------------------------------
  // Header fields

  /** A header line split at the first ": " found at d, with one trailing
      '\r' dropped. */
  function HeaderField(line: string, d: nat): (kv: (string, string))
    requires OccursAt(line, ": ", d)
  {
    var l := if BackIs(line, '\r') then line[..|line| - 1] else line;
    assert line[d + 1] == ' ';
    assert d + 2 <= |l|;
    (l[..d], l[d + 2..])
  }

  /** The header loop of parseRequest: lines are read until one is "\r" or
      getline fails; a line without ": " stops the loop as a failure. */
  datatype HeaderScan = HeaderScan(ok: bool, st: Stream, headers: StrMap)

  function ScanHeaders(st: Stream, headers: StrMap): (r: HeaderScan)
    requires st.Valid()
    ensures r.st.Valid() && r.st.text == st.text
    decreases |st.text| - st.pos
  {
    var rd := GetLine(st, '\n');
    if !rd.st.Ok() || rd.value.value == "\r" then HeaderScan(true, rd.st, headers)
    else
      match Find(rd.value.value, ": ")
      case None => HeaderScan(false, rd.st, headers)
      case Some(d) =>
        var kv := HeaderField(rd.value.value, d);
        ScanHeaders(rd.st, headers[kv.0 := kv.1])
  }

  /** A line "key: value\r" whose key holds no ": " gives back that key
      and that value. */
  lemma HeaderLineRoundTrip(key: string, value: string)
    requires !Contains(key, ": ")
    ensures var line := key + ": " + value + "\r";
      && Find(line, ": ") == Some(|key|)
      && HeaderField(line, |key|) == (key, value)
  {
    var line := key + ": " + value + "\r";
    assert OccursAt(line, ": ", |key|) by {
      assert line[|key|..|key| + 2] == ": ";
    }
    forall i: nat | i < |key|
      ensures !OccursAt(line, ": ", i)
    {
      if i + 2 <= |key| {
        assert line[i..i + 2] == key[i..i + 2];
        assert !OccursAt(key, ": ", i);
      } else {
        assert line[i + 1] == ':';
      }
    }
    var l := line[..|line| - 1];
    assert BackIs(line, '\r');
    assert l == key + ": " + value;
    assert l[..|key|] == key;
    assert l[|key| + 2..] == value;
  }

  /** content_length: std::stoull of the Content-Length entry (an absent
      entry reads as ""), and 0 when that conversion throws. */
  function ContentLengthOf(headers: StrMap): (n: nat)
    ensures n <= ULLONG_MAX
  {
    var text := if "Content-Length" in headers then headers["Content-Length"] else "";
    match Stoull(text)
    case Converted(v) => v
    case _ => 0
  }

  /** What content_length is for a decimal value and for a missing entry. */
  lemma ContentLengthValues(headers: StrMap, n: nat)
    ensures "Content-Length" !in headers ==> ContentLengthOf(headers) == 0
    ensures "Content-Length" in headers && !Stoull(headers["Content-Length"]).Converted? ==>
      ContentLengthOf(headers) == 0
    ensures (n <= ULLONG_MAX && "Content-Length" in headers
      && headers["Content-Length"] == NatToString(n)) ==> ContentLengthOf(headers) == n
  {
    if "Content-Length" !in headers {
      assert ScanInteger("", 0) == Scan(false, 0, 0);
    }
    if n <= ULLONG_MAX {
      StoullOfDecimal(n, "");
      assert NatToString(n) + "" == NatToString(n);
    }
  }

  /** A header line without ": " ends the header loop as a failure, and
      the parse is INVALID with the fields read before it stored. */
  lemma HeaderLineWithoutSeparator(st: Stream, s1: Snapshot, raw0: string)
    requires st.Valid()
    requires var rd := GetLine(st, '\n');
      rd.st.Ok() && rd.value.value != "\r" && Find(rd.value.value, ": ").None?
    ensures HeaderStage(st, s1, raw0) == (Invalid, s1)
  {
  }

  /** A parse that is not INVALID had an accepted request line: the stored
      method's name, a space, a target starting with '/', " HTTP/1.1\r". */
  lemma ParseNeedsRequestLine(s: Snapshot)
    ensures var line := GetLine(Open(s.raw), '\n').value.GetOr("");
      var r := ParseSpec(s);
      r.0 != Invalid ==>
        && r.1.httpMethod != Undefined
        && line == MethodName(r.1.httpMethod) + " " + TargetOf(line) + VersionSuffix
        && StartsWith(TargetOf(line), "/")
  {
    var rd := GetLine(Open(s.raw), '\n');
    var line := rd.value.GetOr("");
    var (rc, s1) := RequestLineSpec(line, s);
    if rc == 0 {
      RequestLineShape(line, s);
      KeepsMethod(rd.st, s1, s.raw);
    }
  }

  /** The header and body stages leave the method alone. */
  lemma KeepsMethod(st: Stream, s1: Snapshot, raw0: string)
    requires st.Valid()
    ensures HeaderStage(st, s1, raw0).1.httpMethod == s1.httpMethod
  {
  }

  /** headers["Content-Length"]: reading the entry inserts an empty one. */
  function WithContentLengthEntry(headers: StrMap): (h: StrMap)
    ensures "Content-Length" in h
    ensures forall k :: k in headers ==> k in h && h[k] == headers[k]
    ensures forall k :: k in h && k != "Content-Length" ==> k in headers
  {
    if "Content-Length" in headers then headers else headers["Content-Length" := ""]
  }

  // ---------------------------------------------------------------------
  // parseRequest and getRequestBody

  /** getRequestBody. */
  function BodySpec(s: Snapshot): (r: (RqStatus, Snapshot))
    ensures |s.raw| == s.contentLength ==> r == (FullBody, s.(body := s.raw))
    ensures |s.raw| < s.contentLength ==> r == (FullHeader, s)
    ensures |s.raw| > s.contentLength ==> r == (Invalid, s)
  {
    if |s.raw| == s.contentLength then (FullBody, s.(body := s.raw))
    else if |s.raw| < s.contentLength then (FullHeader, s)
    else (Invalid, s)
  }

  /** parseRequest, on the request's fields before the call. */
  function ParseSpec(s: Snapshot): (r: (RqStatus, Snapshot))
    ensures r.1.status == s.status
  {
    var rd := GetLine(Open(s.raw), '\n');
    var line := rd.value.GetOr("");
    var (rc, s1) := RequestLineSpec(line, s);
    if rc != 0 then (Invalid, s1) else HeaderStage(rd.st, s1, s.raw)
  }

  /** parseRequest from the header loop on, the request line accepted. */
  function HeaderStage(st: Stream, s1: Snapshot, raw0: string): (r: (RqStatus, Snapshot))
    requires st.Valid()
    ensures r.1.status == s1.status
  {
    var hs := ScanHeaders(st, s1.headers);
    if !hs.ok then (Invalid, s1.(headers := hs.headers))
    else BodyStage(hs.st, s1, hs.headers, raw0)
  }

  /** parseRequest after the header loop: the rest of the stream up to a NUL
      byte replaces raw, content_length is read, and getRequestBody decides
      when that copy reached the end of the stream. */
  function BodyStage(st: Stream, s1: Snapshot, headers: StrMap, raw0: string): (r: (RqStatus, Snapshot))
    requires st.Valid()
    ensures r.1.status == s1.status
  {
    var rest := if st.Ok() then GetLine(st, '\0') else Read(st, None);
    var s3 := s1.(raw := rest.value.GetOr(raw0),
                  headers := WithContentLengthEntry(headers),
                  contentLength := ContentLengthOf(headers));
    if rest.st.eof then BodySpec(s3) else (Invalid, s3)
  }

  // ---------------------------------------------------------------------
  // The wire format the grammar reads back

  /** A header field the grammar reads back unchanged: the key holds no
      ": " and neither part holds a line break. */
  predicate PlainField(f: (string, string))
  {
    !Contains(f.0, ": ") && '\n' !in f.0 && '\n' !in f.1
  }

  /** One "key: value\r\n" line per field. */
  function HeaderLines(fields: seq<(string, string)>): string
    decreases |fields|
  {
    if fields == [] then ""
    else fields[0].0 + ": " + fields[0].1 + "\r\n" + HeaderLines(fields[1..])
  }

  /** headers with the fields stored in order, a later field overwriting. */
  function AddFields(headers: StrMap, fields: seq<(string, string)>): StrMap
    decreases |fields|
  {
    if fields == [] then headers
    else AddFields(headers[fields[0].0 := fields[0].1], fields[1..])
  }

  lemma {:induction false} AddFieldsLast(headers: StrMap, front: seq<(string, string)>, f: (string, string))
    ensures AddFields(headers, front + [f]) == AddFields(headers, front)[f.0 := f.1]
    decreases |front|
  {
    if front == [] {
      assert ([] + [f])[1..] == [];
    } else {
      assert (front + [f])[1..] == front[1..] + [f];
      AddFieldsLast(headers[front[0].0 := front[0].1], front[1..], f);
    }
  }

  /** A request as a client writes it: request line, header lines, the
      blank line, then the body. */
  function WireRequest(m: Method, target: string, fields: seq<(string, string)>, body: string): string
  {
    MethodName(m) + " " + target + VersionSuffix + "\n" + HeaderLines(fields) + "\r\n" + body
  }

  /** The blank line ends the header loop, which resumes after it. */
  lemma ScanHeaderEnd(st: Stream, headers: StrMap)
    requires st.Valid() && st.Good() && StartsWith(st.text[st.pos..], "\r\n")
    ensures ScanHeaders(st, headers) == HeaderScan(true, st.(pos := st.pos + 2), headers)
  {
    assert "\r\n" == "\r" + ['\n'];
    GetLineUpTo(st, '\n', "\r");
  }

  /** A plain field line is stored and the loop resumes after it. */
  lemma ScanHeaderStep(st: Stream, headers: StrMap, k: string, v: string)
    requires st.Valid() && st.Good() && PlainField((k, v))
    requires StartsWith(st.text[st.pos..], k + ": " + v + "\r\n")
    ensures ScanHeaders(st, headers)
      == ScanHeaders(st.(pos := st.pos + |k| + |v| + 4), headers[k := v])
  {
    var line := k + ": " + v + "\r";
    FieldLineShape(k, v);
    GetLineUpTo(st, '\n', line);
    HeaderLineRoundTrip(k, v);
    ScanHeadersField(st, headers, st.(pos := st.pos + |k| + |v| + 4), line, |k|);
  }

  /** One turn of the header loop on a line holding ": ". */
  lemma ScanHeadersField(st: Stream, headers: StrMap, next: Stream, line: string, d: nat)
    requires st.Valid() && next.Valid() && next.Ok()
    requires GetLine(st, '\n') == Read(next, Some(line))
    requires line != "\r" && Find(line, ": ") == Some(d)
    ensures ScanHeaders(st, headers)
      == ScanHeaders(next, headers[HeaderField(line, d).0 := HeaderField(line, d).1])
  {
  }

  /** A field line is its "key: value\r" text and a '\n', which it does
      not otherwise hold, and it is not the blank line. */
  lemma FieldLineShape(k: string, v: string)
    requires PlainField((k, v))
    ensures var line := k + ": " + v + "\r";
      && k + ": " + v + "\r\n" == line + ['\n']
      && '\n' !in line && line != "\r" && |line| + 1 == |k| + |v| + 4
  {
    var line := k + ": " + v + "\r";
    assert line[|k|] == ':';
  }

  /** The header loop reads a block of plain fields up to the blank line. */
  lemma {:induction false} ScanHeaderLines(st: Stream, headers: StrMap,
                                           fields: seq<(string, string)>, body: string)
    requires st.Valid() && st.Good()
    requires st.text[st.pos..] == HeaderLines(fields) + "\r\n" + body
    requires forall i :: 0 <= i < |fields| ==> PlainField(fields[i])
    ensures var hs := ScanHeaders(st, headers);
      && hs.ok && hs.headers == AddFields(headers, fields)
      && hs.st.Good() && hs.st.pos == |st.text| - |body|
    decreases |fields|
  {
    var rest := st.text[st.pos..];
    if fields == [] {
      assert HeaderLines(fields) == "";
      assert rest == "\r\n" + body;
      assert rest[..2] == "\r\n";
      ScanHeaderEnd(st, headers);
    } else {
      var k := fields[0].0;
      var v := fields[0].1;
      var fieldLine := k + ": " + v + "\r\n";
      var more := HeaderLines(fields[1..]) + "\r\n" + body;
      assert HeaderLines(fields) == fieldLine + HeaderLines(fields[1..]);
      assert rest == fieldLine + more;
      assert rest[..|fieldLine|] == fieldLine;
      assert PlainField(fields[0]);
      ScanHeaderStep(st, headers, k, v);
      var next := st.(pos := st.pos + |k| + |v| + 4);
      assert next.text[next.pos..] == more;
      assert forall i :: 0 <= i < |fields| - 1 ==> fields[1..][i] == fields[i + 1];
      ScanHeaderLines(next, headers[k := v], fields[1..], body);
      assert ScanHeaders(st, headers) == ScanHeaders(next, headers[k := v]);
      assert AddFields(headers, fields) == AddFields(headers[k := v], fields[1..]);
    }
  }

  /** The outcome of parseRequest once the header fields are known: the
      method, path and query of t are kept; Content-Length is stored; a NUL
      byte in the body makes the parse INVALID, and otherwise raw keeps the
      body and its length is compared with Content-Length. */
  predicate BodyRead(r: (RqStatus, Snapshot), t: Snapshot, headers: StrMap, body: string)
  {
    && r.1.httpMethod == t.httpMethod && r.1.path == t.path && r.1.params == t.params
    && r.1.headers == WithContentLengthEntry(headers)
    && r.1.contentLength == ContentLengthOf(headers)
    && ('\0' in body ==> r.0 == Invalid)
    && ('\0' !in body ==>
          && r.1.raw == body
          && (r.0 == FullBody <==> |body| == ContentLengthOf(headers))
          && (r.0 == FullBody ==> r.1.body == body)
          && (r.0 == FullHeader <==> |body| < ContentLengthOf(headers)))
  }

  lemma BodyStageOnText(st: Stream, s1: Snapshot, headers: StrMap, raw0: string)
    requires st.Valid() && st.Good()
    ensures BodyRead(BodyStage(st, s1, headers, raw0), s1, headers, st.text[st.pos..])
  {
    if '\0' in st.text[st.pos..] {
      GetLineStopsAtDelimiter(st, '\0');
    } else {
      GetLineToEnd(st, '\0');
    }
  }

  /** On a well-formed request the request line is accepted and the parse
      goes on with the header block, the method and target stored. */
  lemma WireRequestLine(s0: Snapshot, m: Method, target: string,
                        fields: seq<(string, string)>, body: string)
    requires m != Undefined && StartsWith(target, "/") && '\n' !in target
    requires s0.raw == WireRequest(m, target, fields, body)
    ensures var line := MethodName(m) + " " + target + VersionSuffix;
      var st := Open(s0.raw).(pos := |line| + 1);
      && st.Valid() && st.Good()
      && st.text[st.pos..] == HeaderLines(fields) + "\r\n" + body
      && ParseSpec(s0) == HeaderStage(st, TargetSpec(target, s0.(httpMethod := m)).1, s0.raw)
  {
    var raw := s0.raw;
    var line := MethodName(m) + " " + target + VersionSuffix;
    var rest := HeaderLines(fields) + "\r\n" + body;
    assert raw == line + "\n" + rest;
    assert raw[..|line| + 1] == line + "\n";
    assert '\n' !in MethodName(m);
    assert '\n' !in line;
    GetLineUpTo(Open(raw), '\n', line);
    RequestLineRoundTrip(m, target, s0);
    TargetAcceptance(target, s0.(httpMethod := m));
  }

  /** The header stage over a block of plain fields ends in the body stage
      just past the blank line. */
  lemma HeaderStageOnBlock(st: Stream, s1: Snapshot, raw0: string,
                           fields: seq<(string, string)>, body: string)
    requires st.Valid() && st.Good()
    requires st.text[st.pos..] == HeaderLines(fields) + "\r\n" + body
    requires forall i :: 0 <= i < |fields| ==> PlainField(fields[i])
    ensures |body| <= |st.text|
    ensures HeaderStage(st, s1, raw0)
      == BodyStage(st.(pos := |st.text| - |body|), s1, AddFields(s1.headers, fields), raw0)
  {
    ScanHeaderLines(st, s1.headers, fields, body);
    var hs := ScanHeaders(st, s1.headers);
    assert hs.st == st.(pos := |st.text| - |body|);
  }

  /** On a well-formed request the parse reaches the body stage just past
      the blank line, with every field stored. */
  lemma WireRequestReachesBody(s0: Snapshot, m: Method, target: string,
                               fields: seq<(string, string)>, body: string)
    requires m != Undefined && StartsWith(target, "/") && '\n' !in target
    requires forall i :: 0 <= i < |fields| ==> PlainField(fields[i])
    requires s0.raw == WireRequest(m, target, fields, body)
    ensures |body| <= |s0.raw|
    ensures ParseSpec(s0) == BodyStage(Open(s0.raw).(pos := |s0.raw| - |body|),
                                       TargetSpec(target, s0.(httpMethod := m)).1,
                                       AddFields(s0.headers, fields), s0.raw)
  {
    var line := MethodName(m) + " " + target + VersionSuffix;
    var st := Open(s0.raw).(pos := |line| + 1);
    WireRequestLine(s0, m, target, fields, body);
    var s1 := TargetSpec(target, s0.(httpMethod := m)).1;
    assert s1.headers == s0.headers;
    HeaderStageOnBlock(st, s1, s0.raw, fields, body);
    var bst := Open(s0.raw).(pos := |s0.raw| - |body|);
    assert st.(pos := |st.text| - |body|) == bst;
    var h := AddFields(s0.headers, fields);
    assert AddFields(s1.headers, fields) == h;
    assert ParseSpec(s0) == HeaderStage(st, s1, s0.raw);
    assert HeaderStage(st, s1, s0.raw) == BodyStage(bst, s1, h, s0.raw);
  }

  /** parseRequest on a well-formed request: the method, the path and query
      of the target and the header fields come back as written; the body
      bytes are left in raw; a NUL byte in the body makes the parse INVALID,
      and otherwise the body length is compared with Content-Length. */
  lemma ParseWireRequest(s: Snapshot, m: Method, target: string,
                         fields: seq<(string, string)>, body: string)
    requires m != Undefined && StartsWith(target, "/") && '\n' !in target
    requires forall i :: 0 <= i < |fields| ==> PlainField(fields[i])
    ensures var r := ParseSpec(s.(raw := WireRequest(m, target, fields, body)));
      && r.1.httpMethod == m
      && BodyRead(r, TargetSpec(target, s.(httpMethod := m)).1, AddFields(s.headers, fields), body)
  {
    var s0 := s.(raw := WireRequest(m, target, fields, body));
    WireRequestReachesBody(s0, m, target, fields, body);
    var st := Open(s0.raw).(pos := |s0.raw| - |body|);
    assert st.text[st.pos..] == body;
    var s1 := TargetSpec(target, s0.(httpMethod := m)).1;
    var t := TargetSpec(target, s.(httpMethod := m)).1;
    TargetIgnoresRaw(target, s.(httpMethod := m), s0.raw);
    assert s0.(httpMethod := m) == s.(httpMethod := m).(raw := s0.raw);
    var h := AddFields(s.headers, fields);
    BodyStageOnText(st, s1, h, s0.raw);
    assert s1.httpMethod == t.httpMethod == m && s1.path == t.path && s1.params == t.params;
  }

  /** _parseTarget does not look at raw. */
  lemma TargetIgnoresRaw(target: string, x: Snapshot, raw: string)
    ensures TargetSpec(target, x.(raw := raw)).0 == TargetSpec(target, x).0
    ensures TargetSpec(target, x.(raw := raw)).1 == TargetSpec(target, x).1.(raw := raw)
  {
  }

  /** A Content-Length field with a decimal value is a plain field. */
  lemma ContentLengthFieldPlain(n: nat)
    ensures PlainField(("Content-Length", NatToString(n)))
  {
    var f := ("Content-Length", NatToString(n));
    assert ':' !in f.0;
    forall i: nat | i + 2 <= |f.0|
      ensures !OccursAt(f.0, ": ", i)
    {
      assert f.0[i..i + 2][0] == f.0[i];
    }
    assert AllDigits(f.1);
  }

  lemma PlainFieldsAppend(front: seq<(string, string)>, f: (string, string))
    requires forall i :: 0 <= i < |front| ==> PlainField(front[i])
    requires PlainField(f)
    ensures forall i :: 0 <= i < |front + [f]| ==> PlainField((front + [f])[i])
  {
    forall i | 0 <= i < |front + [f]|
      ensures PlainField((front + [f])[i])
    {
      if i < |front| {
        assert (front + [f])[i] == front[i];
      }
    }
  }

  /** A request whose last header field is a Content-Length giving the body
      length, and whose body holds no NUL byte, parses to FULL_BODY with that
      body. */
  lemma ParseCompleteRequest(s: Snapshot, m: Method, target: string,
                             front: seq<(string, string)>, body: string)
    requires m != Undefined && StartsWith(target, "/") && '\n' !in target
    requires forall i :: 0 <= i < |front| ==> PlainField(front[i])
    requires '\0' !in body && |body| <= ULLONG_MAX
    ensures var r := ParseSpec(s.(raw := WireRequest(m, target, front + [("Content-Length", NatToString(|body|))], body)));
      r.0 == FullBody && r.1.body == body && r.1.contentLength == |body|
  {
    var f := ("Content-Length", NatToString(|body|));
    ContentLengthFieldPlain(|body|);
    PlainFieldsAppend(front, f);
    ParseWireRequest(s, m, target, front + [f], body);
    AddFieldsLast(s.headers, front, f);
    ContentLengthValues(AddFields(s.headers, front + [f]), |body|);
  }

  class Request {
    var raw: string
    var httpMethod: Method
    var path: string
    var params: StrMap
    var headers: StrMap
    var body: string
    var status: RqStatus
    var contentLength: nat

    /** Request(): method UNDEFINED, status NEW, everything else empty. */
    constructor ()
      ensures httpMethod == Undefined && status == New
      ensures raw == "" && path == "" && params == map[] && headers == map[] && body == ""
      ensures contentLength == 0
    {
      raw := "";
      httpMethod := Undefined;
      path := "";
      params := map[];
      headers := map[];
      body := "";
      status := New;
      contentLength := 0;
    }

    function State(): Snapshot
      reads this
    {
      Snapshot(raw, httpMethod, path, params, headers, body, status, contentLength)
    }

    /** getRequestBody: FULL_BODY with the bytes as body when they are
        exactly content_length long, FULL_HEADER while fewer have arrived,
        INVALID once there are more. */
    method GetRequestBody() returns (r: RqStatus)
      modifies this
      ensures (r, State()) == BodySpec(old(State()))
      ensures r == FullBody <==> |raw| == contentLength
      ensures r == FullBody ==> body == raw
      ensures r == FullHeader <==> |raw| < contentLength
    {
      if |raw| == contentLength {
        body := raw;
        return FullBody;
      } else if |raw| < contentLength {
        return FullHeader;
      }
      return Invalid;
    }

    /** _parseTarget. */
    method ParseTarget(line: string) returns (rc: int)
      modifies this
      ensures (rc, State()) == TargetSpec(line, old(State()))
    {
      if line == [] || line[0] != '/' {
        return 1;
      }
      var q := FindChar(line, '?', 0);
      if q.None? {
        path := line;
        return 0;
      }
      path := line[..q.value];
      var st := Open(line[q.value + 1..]);
      ghost var goal := QueryLoop(st, params);
      ghost var before := State();
      while true
        invariant st.Valid() && QueryLoop(st, params) == goal
        invariant State() == before.(params := params)
        decreases |st.text| - st.pos
      {
        var rd := GetLine(st, '&');
        if !rd.st.Ok() {
          st := rd.st;
          break;
        }
        st := rd.st;
        var piece := rd.value.value;
        var key := PieceKey(piece);
        params := params[key := PieceValue(piece)];
      }
      rc := if st.eof then 0 else 1;
    }

    /** _parseRequestLine. */
    method ParseRequestLine(line: string) returns (rc: int)
      modifies this
      ensures (rc, State()) == RequestLineSpec(line, old(State()))
    {
      var sp1 := FindChar(line, ' ', 0);
      var sp2 := RFindChar(line, ' ');
      if sp1 == sp2 || line[sp2.value..] != VersionSuffix {
        return 1;
      }
      var m := MethodFromName(line[..sp1.value]);
      if m.None? {
        return 1;
      }
      httpMethod := m.value;
      rc := ParseTarget(line[sp1.value + 1..sp2.value]);
    }

    /** parseRequest (the caller stores the returned status). */
    method ParseRequest() returns (r: RqStatus)
      modifies this
      ensures (r, State()) == ParseSpec(old(State()))
    {
      ghost var s0 := State();
      var st := Open(raw);
      var line := "";
      var rd := GetLine(st, '\n');
      st := rd.st;
      line := rd.value.GetOr(line);
      var rc := ParseRequestLine(line);
      if rc != 0 {
        return Invalid;
      }
      ghost var s1 := State();
      ghost var goal := ScanHeaders(st, headers);
      while true
        invariant st.Valid() && st.text == s0.raw
        invariant ScanHeaders(st, headers) == goal
        invariant State() == s1.(headers := headers)
        decreases |st.text| - st.pos
      {
        rd := GetLine(st, '\n');
        if !rd.st.Ok() || rd.value.value == "\r" {
          st := rd.st;
          break;
        }
        st := rd.st;
        line := rd.value.value;
        var d := Find(line, ": ");
        if d.None? {
          return Invalid;
        }
        var kv := HeaderField(line, d.value);
        headers := headers[kv.0 := kv.1];
      }
      assert goal == HeaderScan(true, st, headers);
      r := ReadBody(st);
    }

    /** parseRequest after the header loop. */
    method ReadBody(st: Stream) returns (r: RqStatus)
      requires st.Valid()
      modifies this
      ensures (r, State()) == BodyStage(st, old(State()), old(headers), old(raw))
    {
      ghost var scanned := headers;
      var rest := Read(st, None);
      if st.Ok() {
        rest := GetLine(st, '\0');
        raw := rest.value.GetOr(raw);
      }
      if "Content-Length" !in headers {
        headers := headers["Content-Length" := ""];
      }
      var cl := Stoull(headers["Content-Length"]);
      contentLength := if cl.Converted? then cl.value else 0;
      assert contentLength == ContentLengthOf(scanned);
      if rest.st.eof {
        r := GetRequestBody();
        return;
      }
      return Invalid;
    }
  }
}

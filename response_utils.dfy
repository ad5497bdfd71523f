/** The string helpers of the response builder: the constant tables of
    status lines, built-in error pages and MIME types, path joining, the
    file extension, the status-code conversion and the response header. */
module ResponseUtils {
  import opened Wrappers
  import opened Strings
  import opened Streams
  import opened HttpRequest

  /** Response::_response_codes. */
  const ResponseCodes: map<nat, string> := map[
    200 := "200 OK",
    403 := "403 Forbidden",
    404 := "404 Not Found",
    405 := "405 Method Not Allowed",
    413 := "413 Request Entity Too Large",
    500 := "500 Internal Server Error"]

  /** Response::_error_pages; key 0 is the page for codes without one. */
  const DefaultErrorPages: map<int, string> := map[
    403 := "./default_pages/403.html",
    404 := "./default_pages/404.html",
    405 := "./default_pages/405.html",
    413 := "./default_pages/413.html",
    500 := "./default_pages/500.html",
    0 := "./default_pages/unknown.html"]

  /** Response::_mime_types; the empty extension is plain text. */
  const MimeTypes: map<string, string> := map[
    "html" := "text/html",
    "css" := "text/css",
    "js" := "text/javascript",
    "jpg" := "image/jpeg",
    "jpeg" := "image/jpeg",
    "png" := "image/png",
    "ico" := "image/x-icon",
    "json" := "application/json",
    "pdf" := "application/pdf",
    "zip" := "application/zip",
    "" := "text/plain"]

  /** _build_path: first and second joined by exactly one '/' unless first
      already ends with one, or second is empty or starts with one. */
  function BuildPath(first: string, second: string): (r: string)
    ensures StartsWith(r, first) && EndsWith(r, second)
    ensures (BackIs(first, '/') || second == [] || FrontIs(second, '/')) ==> r == first + second
    ensures !(BackIs(first, '/') || second == [] || FrontIs(second, '/')) ==>
      |r| == |first| + 1 + |second| && r[|first|] == '/'
  {
    if BackIs(first, '/') || second == [] || FrontIs(second, '/') then first + second
    else first + "/" + second
  }

  /** _getFileExtension: the text after the last '.', or "" without one. */
  function FileExtension(p: string): (e: string)
    ensures EndsWith(p, e) && '.' !in e
    ensures '.' !in p ==> e == ""
    ensures '.' in p ==> p[|p| - |e| - 1] == '.'
  {
    match RFindChar(p, '.')
    case None => ""
    case Some(i) =>
      assert p[i + 1..] == p[|p| - |p[i + 1..]|..];
      p[i + 1..]
  }

  /** A name followed by '.' and an extension without dots has that
      extension. */
  lemma FileExtensionOfName(stem: string, ext: string)
    requires '.' !in ext
    ensures FileExtension(stem + "." + ext) == ext
  {
    var p := stem + "." + ext;
    assert p[|stem|] == '.';
    assert forall i :: |stem| < i < |p| ==> p[i] == ext[i - |stem| - 1];
    assert RFindChar(p, '.') == Some(|stem|);
    assert p[|stem| + 1..] == ext;
  }

  /** _stringToInt: std::stoi, with -1 for text that holds no number.  The
      out_of_range exception is not caught and leaves the server: None. */
  function StringToInt(s: string): (r: Option<int>)
    ensures r.None? <==> Stoi(s).OutOfRange?
    ensures Stoi(s).InvalidArgument? ==> r == Some(-1)
    ensures Stoi(s).Converted? ==> r == Some(Stoi(s).value)
  {
    match Stoi(s)
    case Converted(v) => Some(v)
    case InvalidArgument => Some(-1)
    case OutOfRange => None
  }

  /** A decimal int followed by a non-digit converts to its value. */
  lemma StringToIntOfDecimal(n: nat, rest: string)
    requires n <= INT_MAX
    requires rest == [] || !IsDigit(rest[0])
    ensures StringToInt(NatToString(n) + rest) == Some(n)
  {
    StoiOfDecimal(n, rest);
  }

  /** Four characters hold at most four digits, so the conversion never
      throws out_of_range on them. */
  lemma StringToIntShort(s: string)
    requires |s| <= 4
    ensures StringToInt(s).Some?
    ensures -9999 <= StringToInt(s).value <= 9999
  {
    var sc := ScanInteger(s, 0);
    if sc.start < sc.end {
      var d := s[sc.start..sc.end];
      DigitsValueBound(d);
      assert Pow10(|d|) <= Pow10(4) by {
        Pow10Monotone(|d|, 4);
      }
    }
  }

  lemma {:induction false} Pow10Monotone(j: nat, k: nat)
    requires j <= k
    ensures Pow10(j) <= Pow10(k)
    decreases k
  {
    if j < k {
      Pow10Monotone(j, k - 1);
    }
  }

  /** The status text after "HTTP/1.1 ": the table's line, or the bare
      code for a code the table lacks. */
  function StatusText(code: nat): (t: string)
    ensures code in ResponseCodes ==> t == ResponseCodes[code]
    ensures code !in ResponseCodes ==> t == NatToString(code)
    ensures '\n' !in t
  {
    if code in ResponseCodes then StatusLinePlain(code); ResponseCodes[code] else NatToString(code)
  }

  /** No line of the status table holds a line break. */
  lemma StatusLinePlain(code: nat)
    requires code in ResponseCodes
    ensures '\n' !in ResponseCodes[code]
  {
  }

  /** The Content-Type for an extension: the table's type, or text/plain. */
  function ContentType(ext: string): (t: string)
    ensures ext in MimeTypes ==> t == MimeTypes[ext]
    ensures ext !in MimeTypes ==> t == "text/plain"
    ensures '\n' !in t
  {
    if ext in MimeTypes then MimeTypes[ext] else MimeTypes[""]
  }

  /** _getHtmlHeader: the status line, Content-Type and Content-Length,
      then the blank line. */
  function HtmlHeader(contentLength: nat, code: nat, ext: string): (h: string)
    ensures StartsWith(h, "HTTP/1.1 ") && EndsWith(h, "\r\n\r\n")
  {
    var h := "HTTP/1.1 " + StatusText(code) + "\r\n"
      + "Content-Type: " + ContentType(ext) + "\r\n"
      + "Content-Length: " + NatToString(contentLength) + "\r\n\r\n";
    assert h[..9] == "HTTP/1.1 ";
    assert h[|h| - 4..] == "\r\n\r\n";
    h
  }

  /** The two header fields HtmlHeader writes, in order. */
  function HeaderFields(contentLength: nat, ext: string): seq<(string, string)>
  {
    [("Content-Type", ContentType(ext)), ("Content-Length", NatToString(contentLength))]
  }

  lemma HeaderFieldsPlain(contentLength: nat, ext: string)
    ensures forall i :: 0 <= i < 2 ==> PlainField(HeaderFields(contentLength, ext)[i])
  {
    var f := ("Content-Type", ContentType(ext));
    forall i: nat | i + 2 <= |f.0|
      ensures !OccursAt(f.0, ": ", i)
    {
      assert f.0[i + 1] != ' ';
    }
    ContentLengthFieldPlain(contentLength);
  }

  lemma HtmlHeaderLayout(contentLength: nat, code: nat, ext: string)
    ensures HtmlHeader(contentLength, code, ext)
      == "HTTP/1.1 " + StatusText(code) + "\r\n" + HeaderLines(HeaderFields(contentLength, ext)) + "\r\n"
  {
    var ct := ContentType(ext);
    var n := NatToString(contentLength);
    TwoHeaderLines(("Content-Type", ct), ("Content-Length", n));
    HeaderTextSplit(StatusText(code), ct, n);
  }

  lemma TwoHeaderLines(a: (string, string), b: (string, string))
    ensures HeaderLines([a, b]) == a.0 + ": " + a.1 + "\r\n" + (b.0 + ": " + b.1 + "\r\n")
  {
    assert [a, b][1..] == [b];
    assert [b][1..] == [];
    var lb := b.0 + ": " + b.1 + "\r\n";
    assert HeaderLines([b]) == lb + HeaderLines([]) == lb;
  }

  /** HtmlHeader's text regrouped as status line, field lines and the
      blank line. */
  lemma HeaderTextSplit(status: string, ct: string, n: string)
    ensures "HTTP/1.1 " + status + "\r\n" + "Content-Type: " + ct + "\r\n"
        + "Content-Length: " + n + "\r\n\r\n"
      == "HTTP/1.1 " + status + "\r\n"
        + ("Content-Type" + ": " + ct + "\r\n" + ("Content-Length" + ": " + n + "\r\n")) + "\r\n"
  {
    assert "Content-Type" + ": " == "Content-Type: ";
    assert "Content-Length" + ": " == "Content-Length: ";
    assert "\r\n" + "\r\n" == "\r\n\r\n";
  }

  lemma AddTwoFields(headers: StrMap, a: (string, string), b: (string, string))
    ensures AddFields(headers, [a, b]) == headers[a.0 := a.1][b.0 := b.1]
  {
    assert [a, b][1..] == [b];
    assert [b][1..] == [];
    assert AddFields(headers[a.0 := a.1][b.0 := b.1], []) == headers[a.0 := a.1][b.0 := b.1];
    assert AddFields(headers[a.0 := a.1], [b]) == AddFields(headers[a.0 := a.1][b.0 := b.1], []);
  }

  /** The status line of a response built on HtmlHeader is its first line. */
  lemma HtmlHeaderFirstLine(contentLength: nat, code: nat, ext: string, body: string)
    ensures var resp := HtmlHeader(contentLength, code, ext) + body;
      var line := "HTTP/1.1 " + StatusText(code) + "\r";
      var st := Open(resp).(pos := |line| + 1);
      && st.Valid()
      && GetLine(Open(resp), '\n') == Read(st, Some(line))
      && st.text[st.pos..] == HeaderLines(HeaderFields(contentLength, ext)) + "\r\n" + body
  {
    var resp := HtmlHeader(contentLength, code, ext) + body;
    var line := "HTTP/1.1 " + StatusText(code) + "\r";
    var rest := HeaderLines(HeaderFields(contentLength, ext)) + "\r\n" + body;
    var lines := HeaderLines(HeaderFields(contentLength, ext));
    HtmlHeaderLayout(contentLength, code, ext);
    assert HtmlHeader(contentLength, code, ext) == line + "\n" + lines + "\r\n";
    assert resp == line + "\n" + rest;
    GetFirstLine(line, '\n', rest);
  }

  /** A response built on HtmlHeader reads back with the server's own header
      grammar: the status line, then exactly the two fields, whose
      Content-Length is the length given, then the body. */
  lemma HtmlHeaderReadsBack(contentLength: nat, code: nat, ext: string, body: string)
    requires contentLength <= ULLONG_MAX
    ensures var resp := HtmlHeader(contentLength, code, ext) + body;
      var first := GetLine(Open(resp), '\n');
      var hs := ScanHeaders(first.st, map[]);
      && first.value == Some("HTTP/1.1 " + StatusText(code) + "\r")
      && first.st.Valid() && first.st.Good()
      && hs.ok
      && hs.headers == map["Content-Type" := ContentType(ext), "Content-Length" := NatToString(contentLength)]
      && ContentLengthOf(hs.headers) == contentLength
      && hs.st.text[hs.st.pos..] == body
  {
    HtmlHeaderFirstLine(contentLength, code, ext, body);
    var resp := HtmlHeader(contentLength, code, ext) + body;
    var first := GetLine(Open(resp), '\n');
    var fields := HeaderFields(contentLength, ext);
    HeaderFieldsPlain(contentLength, ext);
    ScanHeaderLines(first.st, map[], fields, body);
    AddTwoFields(map[], fields[0], fields[1]);
    assert fields == [fields[0], fields[1]];
    ContentLengthValues(AddFields(map[], fields), contentLength);
  }
}

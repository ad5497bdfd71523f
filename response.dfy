/** The response builder: a Response holds the bytes to send, the local
    path of a listed directory and the location that routed the request.
    prepareResponse maps a request path to a static file, a directory
    listing, an error page or a CGI handoff; prepareResponseError resolves
    an error page through its fallback chain; handleCgiResponse turns a
    script's output into an HTTP response. */
module HttpResponse {
  import opened Wrappers
  import opened Strings
  import opened Config
  import opened Fs
  import opened ResponseUtils
  import opened ResponseDirectory
  import Streams
  import HttpRequest

  /** A page the server may serve as an error page: access(R_OK) succeeds
      and it is not a directory. */
  predicate Usable(fs: FileSystem, p: string)
  {
    Readable(fs, p) && !IsDirectory(fs, p)
  }

  /** _getErrorPagePath: the configured page for code when it is usable,
      else "". */
  function ErrorPagePath(pages: map<int, string>, code: nat, fs: FileSystem): (p: string)
    ensures p != "" <==> code in pages && Usable(fs, pages[code])
    ensures p != "" ==> p == pages[code]
  {
    if code !in pages then ""
    else if Usable(fs, pages[code]) then pages[code]
    else ""
  }

  /** _saveResponsePage's text: the header for the file's length, code and
      extension, then the file's bytes. */
  function PageResponse(fs: FileSystem, p: string, code: nat): string
    requires ReadFile(fs, p).Some?
  {
    var content := ReadFile(fs, p).value;
    HtmlHeader(|content|, code, FileExtension(p)) + content
  }

  /** The page prepareResponseError serves, in the order it tries them: a
      usable location page for the code that opens; otherwise the built-in
      page for the code when it is usable, else the built-in unknown page;
      None when that last candidate does not open. */
  function ErrorPageChoice(location: Option<Location>, code: nat, fs: FileSystem): (r: Option<string>)
    ensures r.Some? ==> ReadFile(fs, r.value).Some?
    ensures (location.Some? && code in location.value.errorPages
             && Usable(fs, location.value.errorPages[code])
             && ReadFile(fs, location.value.errorPages[code]).Some?)
      ==> r == Some(location.value.errorPages[code])
    ensures r.Some? ==>
      || (location.Some? && code in location.value.errorPages
          && r.value == location.value.errorPages[code] && Usable(fs, r.value))
      || (code in DefaultErrorPages && r.value == DefaultErrorPages[code] && Usable(fs, r.value))
      || r.value == DefaultErrorPages[0]
    ensures ((location.None? || code !in location.value.errorPages)
             && (code !in DefaultErrorPages || !Usable(fs, DefaultErrorPages[code])))
      ==> r == (if ReadFile(fs, DefaultErrorPages[0]).Some? then Some(DefaultErrorPages[0]) else None)
  {
    var p1 := if location.Some? then ErrorPagePath(location.value.errorPages, code, fs) else "";
    if p1 != "" && ReadFile(fs, p1).Some? then Some(p1)
    else
      var p2 := ErrorPagePath(DefaultErrorPages, code, fs);
      var p3 := if p2 == "" then DefaultErrorPages[0] else p2;
      if ReadFile(fs, p3).Some? then Some(p3) else None
  }

  /** full_response after prepareResponseError; unchanged when no page
      opens. */
  function ErrorResponse(full0: string, location: Option<Location>, code: nat, fs: FileSystem): string
  {
    match ErrorPageChoice(location, code, fs)
    case Some(p) => PageResponse(fs, p, code)
    case None => full0
  }

  /** A saved page reads back: its status line carries the code, and its
      Content-Length is the number of bytes of the page that follow. */
  lemma PageResponseReadsBack(fs: FileSystem, p: string, code: nat)
    requires ReadFile(fs, p).Some? && |ReadFile(fs, p).value| <= ULLONG_MAX
    ensures var content := ReadFile(fs, p).value;
      PageResponse(fs, p, code) == HtmlHeader(|content|, code, FileExtension(p)) + content
    ensures var content := ReadFile(fs, p).value;
      var resp := PageResponse(fs, p, code);
      var hs := HttpRequest.ScanHeaders(Streams.GetLine(Streams.Open(resp), '\n').st, map[]);
      && hs.ok
      && HttpRequest.ContentLengthOf(hs.headers) == |content|
      && hs.st.text[hs.st.pos..] == content
  {
    var content := ReadFile(fs, p).value;
    HtmlHeaderReadsBack(|content|, code, FileExtension(p), content);
  }

  /** A listing page: the header for a 200 html page, then the page. */
  function ListingResponse(html: string): string
  {
    ListingHeader(|html|) + html
  }

  /** _generateDirectoryList of ResponseDirectory.cpp, as a value. */
  function DirectoryListing(fs: FileSystem, localPath: string, filePath: string,
                            full0: string, location: Option<Location>): string
  {
    match ReadDir(fs, localPath)
    case None => ErrorResponse(full0, location, 403, fs)
    case Some(entries) =>
      ListingResponse(ListingHead(filePath) + Rows(fs, localPath, entries) + ListingTail)
  }

  /** _generateDirectoryList(dir_path, file_path) of Response.cpp, as a value. */
  function DirectoryListingAt(fs: FileSystem, dirPath: string, filePath: string,
                              full0: string, location: Option<Location>, garbage: int): string
  {
    match ReadDir(fs, dirPath)
    case None => ErrorResponse(full0, location, 403, fs)
    case Some(entries) =>
      ListingResponse(ListingHead(filePath) + CarriedRows(fs, dirPath, entries, garbage).1 + ListingTail)
  }

  /** A listing reads back like a saved page: Content-Length is the length
      of the html that follows the header. */
  lemma ListingResponseReadsBack(html: string)
    requires |html| <= ULLONG_MAX
    ensures var hs := HttpRequest.ScanHeaders(Streams.GetLine(Streams.Open(ListingResponse(html)), '\n').st, map[]);
      && hs.ok
      && HttpRequest.ContentLengthOf(hs.headers) == |html|
      && hs.st.text[hs.st.pos..] == html
  {
    ListingHeaderIsHtmlHeader(|html|);
    HtmlHeaderReadsBack(|html|, 200, "html", html);
  }

  // ---------------------------------------------------------------------
  // prepareResponse

  /** The index step at the head of prepareResponse: when the request path
      is the location's own path and the index file exists, the path
      prepareResponse calls itself with. */
  function IndexTarget(loc: Location, filePath: string, fs: FileSystem): (r: Option<string>)
    ensures r.Some? ==> r.value == "/" + loc.indexPage && filePath == loc.path
  {
    if filePath == loc.path && loc.indexPage != "" && Exists(fs, loc.root + "/" + loc.indexPage)
    then Some("/" + loc.indexPage)
    else None
  }

  /** As written, prepareResponse recurses on the index path whenever
      IndexTarget gives one.  For a location whose path is "/" + its index
      page the recursive call repeats its own arguments, so prepareResponse
      never returns: a request for "/a/a" on a location "/a" with index "a"
      and an existing root + "/a" reaches it. */
  lemma IndexRecursionRepeats(root: string, fs: FileSystem)
    requires Exists(fs, root + "/a")
    ensures var loc := DefaultLocation.(path := "/a", root := root, indexPage := "a");
      IndexTarget(loc, "/a", fs) == Some("/a")
  {
    assert "/" + "a" == "/a";
    assert root + "/" + "a" == root + "/a";
  }

  /** prepareResponse from the second check on: a directory path ending in
      '/' gives a listing or 403; a ".py" path is handed to CGI when it is
      executable and gives 404 otherwise; any other path is served as a
      file when it opens and is not a directory, and gives 404 otherwise. */
  function ServeSpec(loc: Location, filePath: string, code: nat, fs: FileSystem,
                     full0: string, garbage: int): (r: (int, string))
    ensures r.0 == 0 || r.0 == 1
  {
    var fullPath := loc.root + filePath;
    if BackIs(fullPath, '/') && IsDirectory(fs, fullPath) then
      (1, if loc.autoindex == 1 then DirectoryListingAt(fs, fullPath, filePath, full0, Some(loc), garbage)
          else ErrorResponse(full0, Some(loc), 403, fs))
    else if FileExtension(filePath) == "py" then
      if Executable(fs, fullPath) then (0, full0) else (1, ErrorResponse(full0, Some(loc), 404, fs))
    else
      match ReadFile(fs, fullPath)
      case Some(content) =>
        if IsDirectory(fs, fullPath) then (1, ErrorResponse(full0, Some(loc), 404, fs))
        else (1, HtmlHeader(|content|, code, FileExtension(filePath)) + content)
      case None => (1, ErrorResponse(full0, Some(loc), 404, fs))
  }

  /** prepareResponse (with the index recursion stopped at its fixed
      point): the index is served with status 200 when it applies. */
  function PrepareSpec(loc: Location, filePath: string, code: nat, fs: FileSystem,
                       full0: string, garbage: int): (r: (int, string))
  {
    match IndexTarget(loc, filePath, fs)
    case Some(ip) => if ip != filePath then ServeSpec(loc, ip, 200, fs, full0, garbage)
                     else ServeSpec(loc, filePath, code, fs, full0, garbage)
    case None => ServeSpec(loc, filePath, code, fs, full0, garbage)
  }

  /** What prepareResponse returns: 0 exactly for a CGI handoff, which
      leaves full_response alone and happens only for an executable ".py"
      path (the request path, or the index path that replaced it). */
  lemma PrepareCgiHandoff(loc: Location, filePath: string, code: nat, fs: FileSystem,
                          full0: string, garbage: int)
    ensures var r := PrepareSpec(loc, filePath, code, fs, full0, garbage);
      r.0 == 0 ==>
        var served := match IndexTarget(loc, filePath, fs) case Some(ip) => ip case None => filePath;
        && r.1 == full0
        && FileExtension(served) == "py"
        && Executable(fs, loc.root + served)
        && !(BackIs(loc.root + served, '/') && IsDirectory(fs, loc.root + served))
  {
    var served := match IndexTarget(loc, filePath, fs) case Some(ip) => ip case None => filePath;
    ServeCgiHandoff(loc, served, code, fs, full0, garbage);
    ServeCgiHandoff(loc, served, 200, fs, full0, garbage);
  }

  /** The second check on hands a path to CGI only when it is an
      executable ".py" file that is not a listed directory. */
  lemma ServeCgiHandoff(loc: Location, filePath: string, code: nat, fs: FileSystem,
                        full0: string, garbage: int)
    ensures var r := ServeSpec(loc, filePath, code, fs, full0, garbage);
      r.0 == 0 ==>
        && r.1 == full0
        && FileExtension(filePath) == "py"
        && Executable(fs, loc.root + filePath)
        && !(BackIs(loc.root + filePath, '/') && IsDirectory(fs, loc.root + filePath))
  {
  }

  /** A request for a location's own path whose index file exists is
      answered with that index file and status 200. */
  lemma PrepareServesIndex(loc: Location, fs: FileSystem, code: nat, full0: string, garbage: int)
    requires loc.indexPage != "" && Exists(fs, loc.root + "/" + loc.indexPage)
    ensures PrepareSpec(loc, loc.path, code, fs, full0, garbage)
      == ServeSpec(loc, "/" + loc.indexPage, if loc.path == "/" + loc.indexPage then code else 200,
                   fs, full0, garbage)
  {
  }

  /** A plain file that opens is served whole with the code asked for, and
      its Content-Length is its size. */
  lemma ServeStaticFile(loc: Location, filePath: string, code: nat, fs: FileSystem,
                        full0: string, garbage: int)
    requires var fullPath := loc.root + filePath;
      && ReadFile(fs, fullPath).Some? && !IsDirectory(fs, fullPath)
      && FileExtension(filePath) != "py"
    ensures var content := ReadFile(fs, loc.root + filePath).value;
      ServeSpec(loc, filePath, code, fs, full0, garbage)
        == (1, HtmlHeader(|content|, code, FileExtension(filePath)) + content)
  {
  }

  /** A path ending in '/' that names a directory is listed when autoindex
      is 1 and refused with 403 otherwise; a directory named without the
      '/' is a 404. */
  lemma ServeDirectory(loc: Location, filePath: string, code: nat, fs: FileSystem,
                       full0: string, garbage: int)
    requires IsDirectory(fs, loc.root + filePath)
    ensures BackIs(loc.root + filePath, '/') ==>
      ServeSpec(loc, filePath, code, fs, full0, garbage)
        == (1, if loc.autoindex == 1
               then DirectoryListingAt(fs, loc.root + filePath, filePath, full0, Some(loc), garbage)
               else ErrorResponse(full0, Some(loc), 403, fs))
    ensures !BackIs(loc.root + filePath, '/') && FileExtension(filePath) != "py" ==>
      ServeSpec(loc, filePath, code, fs, full0, garbage) == (1, ErrorResponse(full0, Some(loc), 404, fs))
  {
  }

  /** A path that is neither a listed directory nor ".py" and does not
      open is a 404. */
  lemma MissingFile404(loc: Location, filePath: string, code: nat, fs: FileSystem,
                       full0: string, garbage: int)
    requires var fullPath := loc.root + filePath;
      && !(BackIs(fullPath, '/') && IsDirectory(fs, fullPath))
      && FileExtension(filePath) != "py"
      && ReadFile(fs, fullPath).None?
    ensures ServeSpec(loc, filePath, code, fs, full0, garbage) == (1, ErrorResponse(full0, Some(loc), 404, fs))
  {
  }

  /** A ".py" path that is not a listed directory and is not executable is
      a 404; it is never handed to CGI. */
  lemma PyNotExecutable404(loc: Location, filePath: string, code: nat, fs: FileSystem,
                           full0: string, garbage: int)
    requires var fullPath := loc.root + filePath;
      && !(BackIs(fullPath, '/') && IsDirectory(fs, fullPath))
      && FileExtension(filePath) == "py"
      && !Executable(fs, fullPath)
    ensures ServeSpec(loc, filePath, code, fs, full0, garbage) == (1, ErrorResponse(full0, Some(loc), 404, fs))
  {
  }

  // ---------------------------------------------------------------------
  // handleCgiResponse

  /** handleCgiResponse on the script's output: without a leading
      "Status: " a 200 status line is put in front; with one, the four
      characters after it must be a code in 100..599 and a space, else a 500
      page replaces the output; a code the location has an error page for
      is answered with that page; any other code keeps the output with
      "Status:" replaced by "HTTP/1.1". */
  function CgiSpec(full: string, location: Option<Location>, fs: FileSystem): string
  {
    if |full| < 8 || full[..8] != "Status: " then "HTTP/1.1 200 OK\r\n" + full
    else
      var statusStr := Substr(full, 8, 4);
      StringToIntShort(statusStr);
      var code := StringToInt(statusStr).value;
      if code < 100 || code > 599 || !BackIs(statusStr, ' ') then ErrorResponse(full, location, 500, fs)
      else if location.Some? && code in location.value.errorPages then ErrorResponse(full, location, code, fs)
      else "HTTP/1.1" + full[7..]
  }

  /** A script that answers "Status: <code> <rest>" with a code in
      100..599 that has no location error page gets "HTTP/1.1 <code> <rest>". */
  lemma CgiStatusRewrite(code: nat, rest: string, location: Option<Location>, fs: FileSystem)
    requires 100 <= code <= 599
    requires location.None? || code !in location.value.errorPages
    ensures CgiSpec("Status: " + NatToString(code) + " " + rest, location, fs)
      == "HTTP/1.1 " + NatToString(code) + " " + rest
  {
    CgiStatusKept(code, rest, location, fs);
    StatusLineReassoc(NatToString(code), rest);
  }

  lemma StatusLineReassoc(digits: string, rest: string)
    ensures "HTTP/1.1" + (" " + (digits + (" " + rest))) == "HTTP/1.1 " + digits + " " + rest
  {
    ConcatAssoc("HTTP/1.1", " " + digits, " " + rest);
    ConcatAssoc(" ", digits, " " + rest);
    ConcatAssoc("HTTP/1.1 ", digits, " " + rest);
    assert "HTTP/1.1" + " " == "HTTP/1.1 ";
  }

  /** The branch CgiSpec takes for such an answer. */
  lemma CgiStatusKept(code: nat, rest: string, location: Option<Location>, fs: FileSystem)
    requires 100 <= code <= 599
    requires location.None? || code !in location.value.errorPages
    ensures var full := "Status: " + NatToString(code) + " " + rest;
      && |NatToString(code)| == 3
      && CgiSpec(full, location, fs) == "HTTP/1.1" + (" " + (NatToString(code) + (" " + rest)))
  {
    var digits := NatToString(code);
    ThreeDigits(code);
    StatusLineParts(digits, rest);
    StringToIntOfDecimal(code, " ");
    var full := "Status: " + digits + " " + rest;
    var statusStr := Substr(full, 8, 4);
    assert BackIs(statusStr, ' ');
    assert StringToInt(statusStr).value == code;
  }

  /** A three-digit code above 599 is answered with the 500 page, and a
      code in range that the location has an error page for with that page. */
  lemma CgiStatusAnswered(code: nat, rest: string, location: Option<Location>, fs: FileSystem)
    requires 100 <= code <= 999
    ensures var full := "Status: " + NatToString(code) + " " + rest;
      && (code > 599 ==> CgiSpec(full, location, fs) == ErrorResponse(full, location, 500, fs))
      && (code <= 599 && location.Some? && code in location.value.errorPages ==>
            CgiSpec(full, location, fs) == ErrorResponse(full, location, code, fs))
  {
    var digits := NatToString(code);
    ThreeDigits(code);
    StatusLineParts(digits, rest);
    StringToIntOfDecimal(code, " ");
    var full := "Status: " + digits + " " + rest;
    var statusStr := Substr(full, 8, 4);
    assert BackIs(statusStr, ' ');
    assert StringToInt(statusStr).value == code;
  }

  /** Any "Status: " answer whose four status characters are not a code
      in 100..599 followed by a space gets the 500 page: a code below 100,
      a code above 599, or a fourth character other than ' '. */
  lemma CgiStatusRejected(full: string, location: Option<Location>, fs: FileSystem)
    requires |full| >= 8 && full[..8] == "Status: "
    ensures var statusStr := Substr(full, 8, 4);
      && StringToInt(statusStr).Some?
      && (StringToInt(statusStr).value < 100 || StringToInt(statusStr).value > 599 || !BackIs(statusStr, ' ') ==>
            CgiSpec(full, location, fs) == ErrorResponse(full, location, 500, fs))
  {
    StringToIntShort(Substr(full, 8, 4));
  }

  /** A script that answers "Status: 200" with no reason phrase has the
      status characters "200\r", so its own 200 becomes a 500. */
  lemma CgiStatusWithoutReason(rest: string, location: Option<Location>, fs: FileSystem)
    ensures CgiSpec("Status: 200\r\n" + rest, location, fs)
      == ErrorResponse("Status: 200\r\n" + rest, location, 500, fs)
  {
    var full := "Status: 200\r\n" + rest;
    assert full[..8] == "Status: ";
    assert Substr(full, 8, 4) == "200\r";
    CgiStatusRejected(full, location, fs);
  }

  /** A two-digit code is read with the character after it, and is below
      100: "Status: 42 x" gets the 500 page. */
  lemma CgiStatusTwoDigits(rest: string, location: Option<Location>, fs: FileSystem)
    ensures CgiSpec("Status: 42 x" + rest, location, fs)
      == ErrorResponse("Status: 42 x" + rest, location, 500, fs)
  {
    var full := "Status: 42 x" + rest;
    assert full[..8] == "Status: ";
    assert Substr(full, 8, 4) == "42 x";
    StringToIntOfDecimal(42, " x");
    assert NatToString(42) == NatToString(4) + [DigitChar(2)];
    assert NatToString(42) + " x" == "42 x";
    CgiStatusRejected(full, location, fs);
  }

  lemma ThreeDigits(code: nat)
    requires 100 <= code <= 999
    ensures |NatToString(code)| == 3
  {
    assert NatToString(code) == NatToString(code / 10) + [DigitChar(code % 10)];
    assert NatToString(code / 10) == NatToString(code / 100) + [DigitChar(code / 10 % 10)];
  }

  /** Where handleCgiResponse looks in a "Status: " line with a three-digit
      code. */
  lemma StatusLineParts(digits: string, rest: string)
    requires |digits| == 3
    ensures var full := "Status: " + digits + " " + rest;
      && |full| >= 8 && full[..8] == "Status: "
      && Substr(full, 8, 4) == digits + " "
      && full[7..] == " " + (digits + (" " + rest))
  {
    var full := "Status: " + digits + " " + rest;
    assert full[8..12] == digits + " ";
    assert full[7..] == " " + (digits + (" " + rest));
  }

  /** Output that does not start with "Status: " gets a 200 status line in
      front and is otherwise sent as the script wrote it. */
  lemma CgiWithoutStatus(full: string, location: Option<Location>, fs: FileSystem)
    requires !StartsWith(full, "Status: ")
    ensures CgiSpec(full, location, fs) == "HTTP/1.1 200 OK\r\n" + full
  {
  }

  // ---------------------------------------------------------------------
  // The Response object

  class Response {
    var fullResponse: string
    var localPath: string
    var location: Option<Location>

    /** Response(): no location; both strings empty. */
    constructor ()
      ensures fullResponse == "" && localPath == "" && location == None
    {
      fullResponse := "";
      localPath := "";
      location := None;
    }

    /** _saveResponsePage: 1 when the file does not open, leaving
        full_response alone; otherwise the page and 0. */
    method SaveResponsePage(filepath: string, code: nat, fs: FileSystem) returns (rc: int)
      modifies this
      ensures location == old(location) && localPath == old(localPath)
      ensures ReadFile(fs, filepath).None? ==> rc == 1 && fullResponse == old(fullResponse)
      ensures ReadFile(fs, filepath).Some? ==> rc == 0 && fullResponse == PageResponse(fs, filepath, code)
    {
      var file := ReadFile(fs, filepath);
      if file.None? {
        return 1;
      }
      fullResponse := file.value;
      var extension := FileExtension(filepath);
      fullResponse := HtmlHeader(|fullResponse|, code, extension) + fullResponse;
      return 0;
    }

    /** prepareResponseError. */
    method PrepareResponseError(code: nat, fs: FileSystem)
      modifies this
      ensures location == old(location) && localPath == old(localPath)
      ensures fullResponse == ErrorResponse(old(fullResponse), location, code, fs)
    {
      var filepath := "";
      if location.Some? {
        filepath := ErrorPagePath(location.value.errorPages, code, fs);
      }
      if filepath != "" {
        var rc := SaveResponsePage(filepath, code, fs);
        if rc == 0 {
          return;
        }
      }
      filepath := ErrorPagePath(DefaultErrorPages, code, fs);
      if filepath == "" {
        filepath := DefaultErrorPages[0];
      }
      var _ := SaveResponsePage(filepath, code, fs);
    }

    /** _generateDirectoryList(dir_path, file_path) of Response.cpp. */
    method GenerateDirectoryListAt(dirPath: string, filePath: string, fs: FileSystem, garbage: int)
      modifies this
      ensures location == old(location) && localPath == old(localPath)
      ensures fullResponse == DirectoryListingAt(fs, dirPath, filePath, old(fullResponse), location, garbage)
    {
      var html := ListingHead(filePath);
      var dir := ReadDir(fs, dirPath);
      if dir.None? {
        PrepareResponseError(403, fs);
        return;
      }
      var entries := dir.value;
      var c := Carried("", "");
      var i := 0;
      assert html == ListingHead(filePath) + "";
      while i < |entries|
        invariant 0 <= i <= |entries|
        invariant location == old(location) && localPath == old(localPath) && fullResponse == old(fullResponse)
        invariant c == CarriedRows(fs, dirPath, entries[..i], garbage).0
        invariant html == ListingHead(filePath) + CarriedRows(fs, dirPath, entries[..i], garbage).1
      {
        CarriedRowsStep(fs, dirPath, entries, i, garbage);
        var step := CarriedStep(fs, dirPath, entries[i], c, garbage);
        ConcatAssoc(ListingHead(filePath), CarriedRows(fs, dirPath, entries[..i], garbage).1, step.1);
        c := step.0;
        html := html + step.1;
        i := i + 1;
      }
      assert entries[..i] == entries;
      html := html + ListingTail;
      fullResponse := "HTTP/1.1 200 OK\r\nContent-Type: text/html\r\nContent-Length: ";
      fullResponse := fullResponse + NatToString(|html|) + "\r\n\r\n" + html;
    }

    /** _generateDirectoryList(file_path) of ResponseDirectory.cpp: lists
        local_path. */
    method GenerateDirectoryList(filePath: string, fs: FileSystem)
      modifies this
      ensures location == old(location) && localPath == old(localPath)
      ensures fullResponse == DirectoryListing(fs, localPath, filePath, old(fullResponse), location)
    {
      var html := ListingHead(filePath);
      var dir := ReadDir(fs, localPath);
      if dir.None? {
        PrepareResponseError(403, fs);
        return;
      }
      var entries := dir.value;
      var i := 0;
      assert html == ListingHead(filePath) + "";
      while i < |entries|
        invariant 0 <= i <= |entries|
        invariant location == old(location) && localPath == old(localPath) && fullResponse == old(fullResponse)
        invariant html == ListingHead(filePath) + Rows(fs, localPath, entries[..i])
      {
        RowsStep(fs, localPath, entries, i);
        ConcatAssoc(ListingHead(filePath), Rows(fs, localPath, entries[..i]), EntryLine(fs, localPath, entries[i]));
        html := html + EntryLine(fs, localPath, entries[i]);
        i := i + 1;
      }
      assert entries[..i] == entries;
      html := html + ListingTail;
      fullResponse := "HTTP/1.1 200 OK\r\nContent-Type: text/html\r\nContent-Length: ";
      fullResponse := fullResponse + NatToString(|html|) + "\r\n\r\n" + html;
    }

    /** _checkIfDirectory: true exactly when local_path ends in '/' and is a
        directory, after writing its listing (autoindex 1) or a 403. */
    method CheckIfDirectory(filePath: string, fs: FileSystem) returns (isDir: bool)
      requires location.Some?
      modifies this
      ensures location == old(location) && localPath == old(localPath)
      ensures isDir <==> BackIs(localPath, '/') && IsDirectory(fs, localPath)
      ensures isDir && location.value.autoindex == 1 ==>
        fullResponse == DirectoryListing(fs, localPath, filePath, old(fullResponse), location)
      ensures isDir && location.value.autoindex != 1 ==>
        fullResponse == ErrorResponse(old(fullResponse), location, 403, fs)
      ensures !isDir ==> fullResponse == old(fullResponse)
    {
      if BackIs(localPath, '/') && IsDirectory(fs, localPath) {
        if location.value.autoindex == 1 {
          GenerateDirectoryList(filePath, fs);
        } else {
          PrepareResponseError(403, fs);
        }
        return true;
      }
      return false;
    }

    /** prepareResponse, with the index recursion taken only when it
        changes the path (as written it also recurses at the fixed point,
        see IndexRecursionRepeats).  garbage is the indeterminate st_size a
        listing prints for a file whose stat fails. */
    method PrepareResponse(filePath: string, code: nat, fs: FileSystem, garbage: int) returns (rc: int)
      requires location.Some?
      modifies this
      ensures location == old(location) && localPath == old(localPath)
      ensures (rc, fullResponse)
        == PrepareSpec(location.value, filePath, code, fs, old(fullResponse), garbage)
      decreases if filePath == "/" + location.value.indexPage then 0 else 1
    {
      var loc := location.value;
      var rootPath := loc.root;
      if filePath == loc.path && loc.indexPage != "" {
        var indexPage := "/" + loc.indexPage;
        assert rootPath + indexPage == loc.root + "/" + loc.indexPage;
        if Exists(fs, rootPath + indexPage) && indexPage != filePath {
          rc := PrepareResponse(indexPage, 200, fs, garbage);
          return;
        }
      }
      rc := ServePath(filePath, code, fs, garbage);
    }

    /** The checks of prepareResponse after the index substitution: a
        listing or 403 for a directory path ending in '/', the CGI handoff
        (0) or 404 for ".py", the file itself or 404 otherwise. */
    method ServePath(filePath: string, code: nat, fs: FileSystem, garbage: int) returns (rc: int)
      requires location.Some?
      modifies this
      ensures location == old(location) && localPath == old(localPath)
      ensures (rc, fullResponse)
        == ServeSpec(location.value, filePath, code, fs, old(fullResponse), garbage)
    {
      var loc := location.value;
      var fullPath := loc.root + filePath;
      if BackIs(fullPath, '/') && IsDirectory(fs, fullPath) {
        if loc.autoindex == 1 {
          GenerateDirectoryListAt(fullPath, filePath, fs, garbage);
        } else {
          PrepareResponseError(403, fs);
        }
        return 1;
      }
      var extension := FileExtension(filePath);
      if extension == "py" {
        if Executable(fs, fullPath) {
          return 0;
        } else {
          PrepareResponseError(404, fs);
          return 1;
        }
      }
      var file := ReadFile(fs, fullPath);
      if IsDirectory(fs, fullPath) || file.None? {
        PrepareResponseError(404, fs);
        return 1;
      }
      fullResponse := file.value;
      fullResponse := HtmlHeader(|fullResponse|, code, extension) + fullResponse;
      return 1;
    }

    /** handleCgiResponse. */
    method HandleCgiResponse(fs: FileSystem)
      modifies this
      ensures location == old(location) && localPath == old(localPath)
      ensures fullResponse == CgiSpec(old(fullResponse), location, fs)
    {
      if |fullResponse| < 8 || fullResponse[..8] != "Status: " {
        fullResponse := "HTTP/1.1 200 OK\r\n" + fullResponse;
        return;
      }
      var statusStr := Substr(fullResponse, 8, 4);
      StringToIntShort(statusStr);
      var statusCode := StringToInt(statusStr).value;
      if statusCode < 100 || statusCode > 599 || !BackIs(statusStr, ' ') {
        PrepareResponseError(500, fs);
      } else if location.Some? && statusCode in location.value.errorPages {
        PrepareResponseError(statusCode, fs);
      } else {
        fullResponse := "HTTP/1.1" + fullResponse[7..];
      }
    }
  }
}

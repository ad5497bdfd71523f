/** The decisions the event handlers of WebservEvents.cpp and the server
    lookup of Webserv.cpp make, as values: which handler an epoll event
    goes to, which virtual server and which location a request is routed
    to, which validation check fires first, and how the send and pipe-write
    offsets advance. */
module Events {
  import opened Wrappers
  import opened Strings
  import opened Http
  import opened Config

  // ---------------------------------------------------------------------
  // _handleEvent

  /** The bits of one epoll_event the handlers look at. */
  datatype EventBits = EventBits(epollIn: bool, epollOut: bool, epollHup: bool)

  /** The handler an event is dispatched to. */
  datatype Action =
    | Accept        // a listening socket: _handleConnection
    | CgiWrite      // a CGI body pipe ready for writing: _sendCgiRequest
    | CgiRead       // a CGI output pipe readable or hung up: _getCgiResponse
    | CgiNone       // a CGI pipe event with none of those bits
    | Ignore        // an fd the server does not know
    | ClientRead    // a client socket with data: _getClientRequest
    | ClientWrite   // a client socket ready for writing: _sendClientResponse
    | ClientNone    // a client event with neither bit

  /** _handleEvent's dispatch, tried in order: listening socket, CGI pipe,
      unknown fd, client. */
  function Classify(fd: int, ev: EventBits, serverFds: set<int>, pipeFds: set<int>,
                    clientFds: set<int>): (a: Action)
    ensures a == Accept <==> fd in serverFds
    ensures (a == CgiWrite || a == CgiRead || a == CgiNone) <==> fd !in serverFds && fd in pipeFds
    ensures a == Ignore <==> fd !in serverFds && fd !in pipeFds && fd !in clientFds
    ensures a == CgiWrite <==> fd !in serverFds && fd in pipeFds && ev.epollOut
    ensures a == CgiRead <==> fd !in serverFds && fd in pipeFds && !ev.epollOut && (ev.epollIn || ev.epollHup)
    ensures a == ClientRead <==> fd !in serverFds && fd !in pipeFds && fd in clientFds && ev.epollIn
    ensures a == ClientWrite <==>
      fd !in serverFds && fd !in pipeFds && fd in clientFds && !ev.epollIn && ev.epollOut
  {
    if fd in serverFds then Accept
    else if fd in pipeFds then
      if ev.epollOut then CgiWrite
      else if ev.epollIn || ev.epollHup then CgiRead
      else CgiNone
    else if fd !in clientFds then Ignore
    else if ev.epollIn then ClientRead
    else if ev.epollOut then ClientWrite
    else ClientNone
  }

  // ---------------------------------------------------------------------
  // _getTargetServer

  /** host.substr(0, host.find(":")): the Host value up to its first ':'. */
  function HostName(host: string): (h: string)
    ensures StartsWith(host, h) && ':' !in h
    ensures ':' !in host ==> h == host
    ensures ':' in host ==> |h| < |host| && host[|h|] == ':'
  {
    match FindChar(host, ':', 0)
    case None => host
    case Some(i) => host[..i]
  }

  /** The index of the first server, from i on, whose server_names hold
      name. */
  function FirstNamed(servers: seq<ServerData>, name: string, i: nat): (r: Option<nat>)
    requires i <= |servers|
    ensures r.Some? ==> i <= r.value < |servers| && name in servers[r.value].serverNames
    ensures r.Some? ==> forall j :: i <= j < r.value ==> name !in servers[j].serverNames
    ensures r.None? ==> forall j :: i <= j < |servers| ==> name !in servers[j].serverNames
    decreases |servers| - i
  {
    if i == |servers| then None
    else if name in servers[i].serverNames then Some(i)
    else FirstNamed(servers, name, i + 1)
  }

  /** The server a request is given: among the servers bound to the
      accepting socket, the first that names the host, else the first. */
  function TargetServer(servers: seq<ServerData>, host: string): (s: ServerData)
    requires |servers| > 0
    ensures s in servers
    ensures HostName(host) in s.serverNames ||
      (s == servers[0] && forall j :: 0 <= j < |servers| ==> HostName(host) !in servers[j].serverNames)
    ensures forall j :: 0 <= j < |servers| && HostName(host) in servers[j].serverNames ==>
      exists k :: 0 <= k <= j && servers[k] == s && HostName(host) in servers[k].serverNames
  {
    match FirstNamed(servers, HostName(host), 0)
    case Some(i) => servers[i]
    case None => servers[0]
  }

  // ---------------------------------------------------------------------
  // _getTargetLocation

  /** path.compare(0, prefix.size(), prefix) == 0: a plain string prefix,
      not bounded at a '/'. */
  predicate PathMatches(path: string, prefix: string)
  {
    StartsWith(path, prefix)
  }

  /** The index of the first location, from i on, whose path is a prefix of
      the request path. */
  function MatchFrom(locations: seq<Location>, path: string, i: nat): (r: Option<nat>)
    requires i <= |locations|
    ensures r.Some? ==> i <= r.value < |locations| && PathMatches(path, locations[r.value].path)
    ensures r.Some? ==> forall j :: i <= j < r.value ==> !PathMatches(path, locations[j].path)
    ensures r.None? ==> forall j :: i <= j < |locations| ==> !PathMatches(path, locations[j].path)
    decreases |locations| - i
  {
    if i == |locations| then None
    else if PathMatches(path, locations[i].path) then Some(i)
    else MatchFrom(locations, path, i + 1)
  }

  function MatchLocation(locations: seq<Location>, path: string): Option<nat>
  {
    MatchFrom(locations, path, 0)
  }

  /** The request path once the location's prefix is erased: a leading '/'
      is put back when what is left does not start with one (or is empty). */
  function RoutedPath(path: string, prefix: string): (r: string)
    requires StartsWith(path, prefix)
    ensures FrontIs(r, '/')
    ensures FrontIs(path[|prefix|..], '/') ==> r == path[|prefix|..]
    ensures !FrontIs(path[|prefix|..], '/') ==> r == "/" + path[|prefix|..]
  {
    var rest := path[|prefix|..];
    if FrontIs(rest, '/') then rest else "/" + rest
  }

  /** Locations in the order _sortLocationByPath leaves them. */
  predicate SortedByLength(locations: seq<Location>)
  {
    forall i, j :: 0 <= i < j < |locations| ==> |locations[i].path| >= |locations[j].path|
  }

  /** On sorted locations the first match is a longest match. */
  lemma FirstMatchIsLongest(locations: seq<Location>, path: string)
    requires SortedByLength(locations)
    requires MatchLocation(locations, path).Some?
    ensures var i := MatchLocation(locations, path).value;
      forall j :: 0 <= j < |locations| && PathMatches(path, locations[j].path) ==>
        |locations[j].path| <= |locations[i].path|
  {
  }

  /** The match is not bounded at a path segment: a location "/api" takes
      the request "/apiv2/x", which is then served as "/v2/x". */
  lemma PrefixMatchCrossesSegments(loc: Location)
    requires loc.path == "/api"
    ensures MatchLocation([loc], "/apiv2/x") == Some(0)
    ensures RoutedPath("/apiv2/x", "/api") == "/v2/x"
  {
    var p := "/api" + "v2/x";
    assert p == "/apiv2/x";
    assert p[..4] == "/api";
    assert p[4..] == "v2/x";
  }

  // ---------------------------------------------------------------------
  // _checkRequestValid

  /** The outcome of the checks, first that fires. */
  datatype Verdict = Pass | Reject(code: nat) | Redirect(response: string)

  /** The reason phrase and line end of a redirect status line: only 301 and
      302 have one. */
  function RedirectReason(code: int): string
  {
    if code == 301 then "Moved Permanently\r\n"
    else if code == 302 then "Found\r\n"
    else ""
  }

  /** The redirect response: status line, Location, an empty body. */
  function RedirectResponse(code: int, target: string): (r: string)
    ensures StartsWith(r, "HTTP/1.1 " + IntToString(code) + " ")
    ensures EndsWith(r, "Location: " + target + "\r\nContent-Length: 0\r\n\r\n")
  {
    var head := "HTTP/1.1 " + IntToString(code) + " ";
    var tail := "Location: " + target + "\r\nContent-Length: 0\r\n\r\n";
    var r := head + RedirectReason(code) + tail;
    assert r[..|head|] == head;
    assert r[|r| - |tail|..] == tail;
    r
  }

  /** The checks in order: a method the location does not allow is a 405;
      a Content-Length above its limit is a 413; a rewrite target makes a
      redirect; only the first that applies fires. */
  function Validate(loc: Location, m: Method, contentLength: nat): (v: Verdict)
    ensures v == Reject(405) <==> m !in loc.allowedMethods
    ensures v == Reject(413) <==> m in loc.allowedMethods && contentLength > loc.clientMaxBodySize
    ensures v.Redirect? <==>
      m in loc.allowedMethods && contentLength <= loc.clientMaxBodySize && loc.redirectPath != ""
    ensures v.Redirect? ==> v.response == RedirectResponse(loc.redirectCode, loc.redirectPath)
    ensures v == Pass <==>
      m in loc.allowedMethods && contentLength <= loc.clientMaxBodySize && loc.redirectPath == ""
  {
    if m !in loc.allowedMethods then Reject(405)
    else if contentLength > loc.clientMaxBodySize then Reject(413)
    else if loc.redirectPath != "" then Redirect(RedirectResponse(loc.redirectCode, loc.redirectPath))
    else Pass
  }

  /** The redirect response split where the target goes. */
  lemma RedirectLayout(code: int, target: string)
    ensures RedirectResponse(code, target)
      == ("HTTP/1.1 " + IntToString(code) + " " + RedirectReason(code) + "Location: ")
         + target + "\r\nContent-Length: 0\r\n\r\n"
  {
    var front := "HTTP/1.1 " + IntToString(code) + " " + RedirectReason(code);
    ConcatAssoc(front, "Location: " + target, "\r\nContent-Length: 0\r\n\r\n");
    ConcatAssoc(front, "Location: ", target);
  }

  /** The status line of each redirect, up to the Location field name. */
  lemma Head301Text()
    ensures "HTTP/1.1 " + IntToString(301) + " " + RedirectReason(301) + "Location: "
      == "HTTP/1.1 301 Moved Permanently\r\nLocation: "
  {
    Status301Text();
    assert "HTTP/1.1 301 " + "Moved Permanently\r\n" == "HTTP/1.1 301 Moved Permanently\r\n";
  }

  lemma Status301Text()
    ensures "HTTP/1.1 " + IntToString(301) + " " == "HTTP/1.1 301 "
  {
    Code301Text();
    assert "HTTP/1.1 " + "301" == "HTTP/1.1 301";
  }

  /** The status codes of the two redirects print as their three digits. */
  lemma Code301Text()
    ensures IntToString(301) == "301"
  {
    IntToStringOfNat(301);
    assert NatToString(301) == NatToString(30) + [DigitChar(1)];
    assert NatToString(30) == NatToString(3) + [DigitChar(0)];
  }

  lemma Head302Text()
    ensures "HTTP/1.1 " + IntToString(302) + " " + RedirectReason(302) + "Location: "
      == "HTTP/1.1 302 Found\r\nLocation: "
  {
    Status302Text();
    assert "HTTP/1.1 302 " + "Found\r\n" == "HTTP/1.1 302 Found\r\n";
  }

  lemma Status302Text()
    ensures "HTTP/1.1 " + IntToString(302) + " " == "HTTP/1.1 302 "
  {
    Code302Text();
    assert "HTTP/1.1 " + "302" == "HTTP/1.1 302";
  }

  lemma Code302Text()
    ensures IntToString(302) == "302"
  {
    IntToStringOfNat(302);
    assert NatToString(302) == NatToString(30) + [DigitChar(2)];
    assert NatToString(30) == NatToString(3) + [DigitChar(0)];
  }

  /** The permanent redirect of section 6.4.2 of RFC 7231, with the target
      in Location (section 7.1.2). */
  lemma Redirect301(target: string)
    ensures RedirectResponse(301, target)
      == "HTTP/1.1 301 Moved Permanently\r\nLocation: " + target + "\r\nContent-Length: 0\r\n\r\n"
  {
    Head301Text();
    RedirectLayout(301, target);
  }

  /** The temporary redirect of section 6.4.3 of RFC 7231. */
  lemma Redirect302(target: string)
    ensures RedirectResponse(302, target)
      == "HTTP/1.1 302 Found\r\nLocation: " + target + "\r\nContent-Length: 0\r\n\r\n"
  {
    Head302Text();
    RedirectLayout(302, target);
  }

  /** Any other rewrite code gets no reason phrase and no line end: the
      Location field lands on the status line. */
  lemma RedirectOtherCode(code: int, target: string)
    requires code != 301 && code != 302
    ensures RedirectResponse(code, target)
      == "HTTP/1.1 " + IntToString(code) + " " + "Location: " + target + "\r\nContent-Length: 0\r\n\r\n"
  {
    var head := "HTTP/1.1 " + IntToString(code) + " ";
    assert head + "" == head;
    RedirectLayout(code, target);
    ConcatAssoc(head, "Location: " + target, "\r\nContent-Length: 0\r\n\r\n");
    ConcatAssoc(head, "Location: ", target);
  }

  // ---------------------------------------------------------------------
  // _sendClientResponse and _sendCgiRequest

  /** The chunk handed to send() or write(): chunk_size bytes, or what is
      left when that is less. */
  function ChunkLen(chunkSize: nat, size: nat, done: nat): (n: nat)
    requires done <= size
    ensures n <= chunkSize && done + n <= size
    ensures n == chunkSize || done + n == size
    ensures n == if size - done < chunkSize then size - done else chunkSize
  {
    if size - done < chunkSize then size - done else chunkSize
  }

  /** What _sendClientResponse does with the client after one call. */
  datatype SendOutcome =
    | NothingLeft           // everything was already sent: close
    | SendFailed            // send returned 0 or less: close
    | Flushed               // this send finished the response: close
    | Advanced(sent: nat)   // the new bytes_sent_total

  /** _sendClientResponse's decision on send()'s return value. */
  function SendStep(size: nat, done: nat, sent: int): (o: SendOutcome)
    requires done <= size
  {
    if size == done then NothingLeft
    else if sent <= 0 then SendFailed
    else if sent + done == size then Flushed
    else Advanced(done + sent)
  }

  /** The send offset grows only by the bytes actually sent and never
      reaches the size without the client being closed. */
  lemma SendOffsetBounded(chunkSize: nat, size: nat, done: nat, sent: int)
    requires done <= size && sent <= ChunkLen(chunkSize, size, done)
    ensures SendStep(size, done, sent).Advanced? ==>
      var t := SendStep(size, done, sent).sent;
      done < t < size && t - done == sent
    ensures sent == ChunkLen(chunkSize, size, done) && size - done <= chunkSize && size != done && sent > 0 ==>
      SendStep(size, done, sent) == Flushed
  {
  }

  /** What _sendCgiRequest does with the body pipe after one call. */
  datatype WriteOutcome =
    | BodyDone              // the whole body was written: close the pipe
    | WriteFailed           // write returned less than 0: 500, tear down
    | Wrote(written: nat)   // the new bytes_write_total

  /** _sendCgiRequest's decision on write()'s return value. */
  function WriteStep(size: nat, done: nat, written: int): (o: WriteOutcome)
    requires done <= size
  {
    if done == size then BodyDone
    else if written < 0 then WriteFailed
    else Wrote(done + written)
  }

  /** The write offset grows by the bytes written, never past the body,
      and the call after the last byte closes the pipe. */
  lemma WriteOffsetBounded(chunkSize: nat, size: nat, done: nat, written: int)
    requires done <= size && written <= ChunkLen(chunkSize, size, done)
    ensures WriteStep(size, done, written).Wrote? ==>
      var t := WriteStep(size, done, written).written;
      done <= t <= size && t - done == written
    ensures WriteStep(size, size, written) == BodyDone
  {
  }
}

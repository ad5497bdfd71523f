/** The connection table of the server and its event handlers
    (Webserv.cpp, WebservEvents.cpp, WebservCgi.cpp, WebservUtils.cpp).
    Class Webserv keeps the clients, the CGI pipes and the epoll
    registrations and updates them in place; each handler is proved against
    a function on that state as a value (Tables) and on the contents of the
    client's Request and Response (Conn).  What recv, send, read, write,
    pipe, fork, epoll_ctl, fcntl and the clock return are parameters; the
    fds a handler closes and the pids it kills are logged in the state. */
module Server {
  import opened Wrappers
  import opened Strings
  import opened Http
  import opened Config
  import opened Fs
  import opened Events
  import opened Cgi
  import opened HttpRequest
  import opened HttpResponse

  /** One entry of _clients_map.  The request and the response are objects
      the handlers update in place; server is the virtual server picked for
      the request, held by value. */
  datatype ClientData = ClientData(
    request: Request,
    response: Response,
    bytesSentTotal: nat,
    bytesWriteTotal: nat,
    lastActivity: int,
    cgi: CgiData,
    serverFd: int,
    server: Option<ServerData>)

  /** The entry operator[] makes for a missing key: counters, server_fd and
      CgiData zero, no server.  last_activity has no initialiser in the
      source; every path that makes an entry sets it or leaves it unread,
      here it is 0. */
  function Blank(rq: Request, rs: Response): ClientData
  {
    ClientData(rq, rs, 0, 0, 0, NoCgi, 0, None)
  }

  /** The event masks the server registers. */
  const ReadBits: EventBits := EventBits(true, false, false)
  const WriteBits: EventBits := EventBits(false, true, false)
  const PipeReadBits: EventBits := EventBits(true, false, true)

  /** The mutable state of the server as a value: the client table, the
      pipe map (pipe fd -> client fd), the epoll interest list, and the
      closed fds and killed pids in order. */
  datatype Tables = Tables(
    clients: map<int, ClientData>,
    pipes: map<int, int>,
    interest: map<int, EventBits>,
    closed: seq<int>,
    killed: seq<int>)

  /** The fields of a client's Request and Response the handlers change. */
  datatype Conn = Conn(request: Snapshot, full: string, location: Option<Location>)

  function Contents(rq: Request, rs: Response): Conn
    reads rq, rs
  {
    Conn(rq.State(), rs.fullResponse, rs.location)
  }

  /** What a freshly constructed Request and Response hold. */
  const BlankConn: Conn := Conn(Snapshot("", Undefined, "", map[], map[], "", New, 0), "", None)

  /** The fields the handlers never change. */
  datatype Setup = Setup(
    keepRunning: bool,
    epollFd: int,
    eventArraySize: nat,
    servers: seq<ServerData>,
    serverSockets: map<int, seq<ServerData>>,
    chunkSize: nat,
    timeoutPeriod: int)

  // ---------------------------------------------------------------------
  // Closing fds

  /** close(fd): closing an fd also drops its epoll registration. */
  function ClosedFd(t: Tables, fd: int): Tables
  {
    t.(interest := t.interest - {fd}, closed := t.closed + [fd])
  }

  /** _closeClientFd: the socket is closed and its entry erased. */
  function Closing(t: Tables, fd: int): Tables
  {
    ClosedFd(t, fd).(clients := t.clients - {fd})
  }

  /** _modifyEpollSocketOut: the client is switched to EPOLLOUT; EPOLL_CTL_MOD
      fails on an fd that is not registered, and then the client is closed. */
  function Modifying(t: Tables, fd: int): Tables
  {
    if fd in t.interest then t.(interest := t.interest[fd := WriteBits]) else Closing(t, fd)
  }

  /** The fds named in a sequence of close() calls. */
  function Elements(s: seq<int>): set<int>
  {
    set i | i in s
  }

  /** _closeCgiPipe on a client's CgiData: ClosePipe's effects, the new
      CgiData stored back when the client is still in the table. */
  function PipeClosing(t: Tables, clientFd: int, pipeFd: int, cgi: CgiData): Tables
  {
    var r := ClosePipe(pipeFd, cgi, t.pipes);
    var clients := if clientFd in t.clients then t.clients[clientFd := t.clients[clientFd].(cgi := r.0)] else t.clients;
    Tables(clients, r.1, t.interest - Elements(r.2), t.closed + r.2, t.killed + r.3)
  }

  /** A pipe whose client is gone is closed and forgotten. */
  function Orphaned(t: Tables, pipeFd: int): Tables
  {
    ClosedFd(t, pipeFd).(pipes := t.pipes - {pipeFd})
  }

  /** prepareResponseError on the client's response. */
  function Errored(c: Conn, code: nat, fs: FileSystem): Conn
  {
    c.(full := ErrorResponse(c.full, c.location, code, fs))
  }

  /** The client's last_activity set to now. */
  function Touched(t: Tables, fd: int, now: int): Tables
    requires fd in t.clients
  {
    t.(clients := t.clients[fd := t.clients[fd].(lastActivity := now)])
  }

  // ---------------------------------------------------------------------
  // _getClientRequest and the routing it drives

  /** _getTargetLocation: the first location whose path prefixes the
      request path is stored and its prefix erased from the path (0); when
      none matches, a client with no location yet gets a 404 and is
      switched to write (1). */
  function LocateSpec(t: Tables, fd: int, c: Conn, fs: FileSystem): (r: (int, Tables, Conn))
    requires fd in t.clients && t.clients[fd].server.Some?
    ensures r.0 == 0 ==> r.1 == t && r.2.location.Some?
    ensures r.0 == 0 || r.0 == 1
  {
    var locations := t.clients[fd].server.value.locations;
    match MatchLocation(locations, c.request.path)
    case Some(i) =>
      (0, t, c.(location := Some(locations[i]),
                request := c.request.(path := RoutedPath(c.request.path, locations[i].path))))
    case None =>
      if c.location.None? then (1, Modifying(t, fd), Errored(c, 404, fs)) else (1, t, c)
  }

  /** _checkRequestValid: the first check of Validate that fires answers
      the client and switches it to write (1); otherwise 0. */
  function CheckSpec(t: Tables, fd: int, c: Conn, fs: FileSystem): (r: (int, Tables, Conn))
    requires c.location.Some?
    ensures r.0 == 0 ==> r.1 == t && r.2 == c
    ensures r.0 == 0 || r.0 == 1
  {
    match Validate(c.location.value, c.request.httpMethod, c.request.contentLength)
    case Reject(code) => (1, Modifying(t, fd), Errored(c, code, fs))
    case Redirect(response) => (1, Modifying(t, fd), c.(full := response))
    case Pass => (0, t, c)
  }

  /** The request after parseRequest: its status stored, and the Host
      field inserted empty when absent (request.headers["Host"]). */
  function Parsed(s: Snapshot): (r: Snapshot)
    ensures "Host" in r.headers
  {
    var p := ParseSpec(s);
    var s2 := p.1.(status := p.0);
    if "Host" in s2.headers then s2 else s2.(headers := s2.headers["Host" := ""])
  }

  /** The exit of _getClientRequest that refreshes last_activity: 2 while
      the request is still NEW or FULL_HEADER, else 0. */
  function Touch(t: Tables, fd: int, now: int, c: Conn): (r: (int, Tables, Conn))
    requires fd in t.clients
  {
    (if c.request.status == New || c.request.status == FullHeader then 2 else 0, Touched(t, fd, now), c)
  }

  /** The server sockets map knows the client's listening socket. */
  predicate Bound(t: Tables, sockets: map<int, seq<ServerData>>, fd: int)
  {
    fd in t.clients && t.clients[fd].serverFd in sockets && |sockets[t.clients[fd].serverFd]| > 0
  }

  /** The header stage of _getClientRequest, on a NEW request whose buffer
      holds an empty line: it is parsed and given its virtual server and,
      unless INVALID, routed (4 when no location matches) and checked (3
      when a check answers). */
  function HeaderSpec(t: Tables, sockets: map<int, seq<ServerData>>, fd: int, c: Conn,
                      now: int, fs: FileSystem): (r: (int, Tables, Conn))
    requires Bound(t, sockets, fd)
    ensures (r.0 == 0 || r.0 == 2) ==>
      && fd in r.1.clients
      && r.1.clients[fd].request == t.clients[fd].request
      && r.1.clients[fd].response == t.clients[fd].response
  {
    var s2 := Parsed(c.request);
    var cd := t.clients[fd];
    var server := TargetServer(sockets[cd.serverFd], s2.headers["Host"]);
    var t1 := t.(clients := t.clients[fd := cd.(server := Some(server))]);
    var c1 := c.(request := s2);
    if s2.status == Invalid then Touch(t1, fd, now, c1) else RouteSpec(t1, fd, c1, now, fs)
  }

  /** The routing of a parsed request: 4 when no location matches, 3 when
      a check answers, else the refreshing exit. */
  function RouteSpec(t: Tables, fd: int, c: Conn, now: int, fs: FileSystem): (r: (int, Tables, Conn))
    requires fd in t.clients && t.clients[fd].server.Some?
    ensures (r.0 == 0 || r.0 == 2) ==>
      && fd in r.1.clients
      && r.1.clients[fd].request == t.clients[fd].request
      && r.1.clients[fd].response == t.clients[fd].response
  {
    var l := LocateSpec(t, fd, c, fs);
    if l.0 != 0 then (4, l.1, l.2)
    else
      var v := CheckSpec(l.1, fd, l.2, fs);
      if v.0 != 0 then (3, v.1, v.2) else Touch(v.1, fd, now, v.2)
  }

  /** _getClientRequest: a failed recv closes the client (1); the bytes are
      appended; a NEW request whose buffer holds an empty line goes through
      the header stage; a FULL_HEADER request has its body compared with
      Content-Length. */
  function RequestSpec(t: Tables, sockets: map<int, seq<ServerData>>, fd: int, c: Conn,
                       bytes: int, data: string, now: int, fs: FileSystem): (r: (int, Tables, Conn))
    requires Bound(t, sockets, fd)
    ensures (r.0 == 0 || r.0 == 2) ==>
      && fd in r.1.clients
      && r.1.clients[fd].request == t.clients[fd].request
      && r.1.clients[fd].response == t.clients[fd].response
  {
    if bytes <= 0 then (1, Closing(t, fd), c)
    else
      var s1 := c.request.(raw := c.request.raw + data);
      if s1.status == New && Contains(s1.raw, "\r\n\r\n") then HeaderSpec(t, sockets, fd, c.(request := s1), now, fs)
      else if s1.status == FullHeader then
        var b := BodySpec(s1);
        Touch(t, fd, now, c.(request := b.1.(status := b.0)))
      else Touch(t, fd, now, c.(request := s1))
  }

  /** A client still reading its request: NEW, or FULL_HEADER after the
      routing gave it a location. */
  predicate Reading(c: Conn)
  {
    c.request.status == New || (c.request.status == FullHeader && c.location.Some?)
  }

  // ---------------------------------------------------------------------
  // The CGI link

  /** _connectCgi from the output-pipe registration on. */
  function InputStage(t: Tables, fd: int, c: Conn, fdIn: int, cgi: CgiData, inAddOk: bool, fs: FileSystem)
    : (Tables, Conn)
    requires fd in t.clients
  {
    if !inAddOk then (PipeClosing(Modifying(t, fd), fd, fdIn, cgi), Errored(c, 500, fs))
    else
      (t.(clients := t.clients[fd := t.clients[fd].(cgi := cgi.(fdIn := fdIn))],
          pipes := t.pipes[fdIn := fd],
          interest := t.interest[fdIn := PipeReadBits]), c)
  }

  /** _connectCgi: the body pipe is registered for EPOLLOUT for POST and
      DELETE and closed otherwise; then the output pipe is registered for
      EPOLLIN | EPOLLHUP.  A failed registration answers 500, switches the
      client to write and tears the link down. */
  function ConnectSpec(t: Tables, fd: int, c: Conn, fdIn: int, fdOut: int,
                       outAddOk: bool, inAddOk: bool, fs: FileSystem): (Tables, Conn)
    requires fd in t.clients
  {
    var cd := t.clients[fd];
    var cgi := cd.cgi.(clientFd := fd);
    var t0 := t.(clients := t.clients[fd := cd.(cgi := cgi)]);
    if c.request.httpMethod == Post || c.request.httpMethod == Delete then
      if !outAddOk then
        (PipeClosing(ClosedFd(Modifying(t0, fd), fdIn), fd, fdOut, cgi), Errored(c, 500, fs))
      else
        var cgi1 := cgi.(fdOut := fdOut);
        var t1 := t0.(clients := t0.clients[fd := cd.(cgi := cgi1)],
                      pipes := t0.pipes[fdOut := fd],
                      interest := t0.interest[fdOut := WriteBits]);
        InputStage(t1, fd, c, fdIn, cgi1, inAddOk, fs)
    else InputStage(ClosedFd(t0, fdOut), fd, c, fdIn, cgi, inAddOk, fs)
  }

  /** What pipe() and fork() gave _executeCgi: whether each pipe call
      succeeded, what the two fd arrays hold afterwards (indeterminate for
      a pipe call that failed or was not made), fork's result, and whether
      each epoll registration of _connectCgi succeeds. */
  datatype Launch = Launch(
    resOk: bool, bodyOk: bool,
    fdRes: (int, int), fdBody: (int, int),
    pid: int,
    outAddOk: bool, inAddOk: bool)

  /** close(fd) when fd is non-zero. */
  function CloseIfSet(t: Tables, fd: int): Tables
  {
    if fd != 0 then ClosedFd(t, fd) else t
  }

  /** The closes of _endCgi, in order. */
  function EndClosing(t: Tables, fdRes: (int, int), fdBody: (int, int)): Tables
  {
    CloseIfSet(CloseIfSet(CloseIfSet(CloseIfSet(t, fdRes.0), fdRes.1), fdBody.0), fdBody.1)
  }

  /** _endCgi: the non-zero pipe fds are closed and a 500 prepared. */
  function EndSpec(t: Tables, c: Conn, fdRes: (int, int), fdBody: (int, int), fs: FileSystem)
    : (r: (int, Tables, Conn))
  {
    (1, EndClosing(t, fdRes, fdBody), Errored(c, 500, fs))
  }

  /** _executeCgi, parent side: a failed pipe or fork ends in _endCgi (1);
      otherwise the child's pid is stored, the child's pipe ends are
      closed and the link connected (0). */
  function LaunchSpec(t: Tables, fd: int, c: Conn, launch: Launch, fs: FileSystem): (r: (int, Tables, Conn))
    requires fd in t.clients
  {
    if !launch.resOk || !launch.bodyOk || launch.pid == -1 then
      EndSpec(t, c, launch.fdRes, launch.fdBody, fs)
    else
      var cd := t.clients[fd];
      var t1 := t.(clients := t.clients[fd := cd.(cgi := cd.cgi.(pid := launch.pid))]);
      var t2 := ClosedFd(ClosedFd(t1, launch.fdBody.0), launch.fdRes.1);
      var k := ConnectSpec(t2, fd, c, launch.fdRes.0, launch.fdBody.1, launch.outAddOk, launch.inAddOk, fs);
      (0, k.0, k.1)
  }

  /** _sendCgiRequest for a client in the table: a fully written body
      closes the body pipe; a failed write answers 500 and tears the link
      down from fd_in; otherwise the write offset grows by the bytes
      written. */
  function CgiWriteSpec(t: Tables, pipeFd: int, c: Conn, written: int, now: int, fs: FileSystem)
    : (Tables, Conn)
    requires pipeFd in t.pipes && t.pipes[pipeFd] in t.clients
    requires t.clients[t.pipes[pipeFd]].bytesWriteTotal <= |c.request.body|
  {
    var fd := t.pipes[pipeFd];
    var cd := t.clients[fd];
    match WriteStep(|c.request.body|, cd.bytesWriteTotal, written)
    case BodyDone => (PipeClosing(t, fd, pipeFd, cd.cgi), c)
    case WriteFailed =>
      (PipeClosing(Modifying(Touched(t, fd, now), fd), fd, cd.cgi.fdIn, cd.cgi), Errored(c, 500, fs))
    case Wrote(n) =>
      (t.(clients := t.clients[fd := cd.(lastActivity := now, bytesWriteTotal := n)]), c)
  }

  /** _getCgiResponse for a client in the table: the read refreshes
      last_activity; a failed read answers 500 and tears the link down; a
      positive read is appended to the response; end of file turns the
      output into the response, switches the client to write and tears the
      link down. */
  function CgiReadSpec(t: Tables, pipeFd: int, c: Conn, bytes: int, data: string, now: int, fs: FileSystem)
    : (Tables, Conn)
    requires pipeFd in t.pipes && t.pipes[pipeFd] in t.clients
  {
    var fd := t.pipes[pipeFd];
    var cd := t.clients[fd];
    var t1 := Touched(t, fd, now);
    if bytes < 0 then (PipeClosing(Modifying(t1, fd), fd, pipeFd, cd.cgi), Errored(c, 500, fs))
    else if bytes > 0 then (t1, c.(full := c.full + data))
    else (PipeClosing(Modifying(t1, fd), fd, pipeFd, cd.cgi), c.(full := CgiSpec(c.full, c.location, fs)))
  }

  // ---------------------------------------------------------------------
  // Sending the response

  /** _sendClientResponse: the client is closed when nothing is left, when
      send fails and when this send finishes the response; otherwise the
      offset grows and last_activity is refreshed. */
  function SendSpec(t: Tables, fd: int, size: nat, sent: int, now: int): Tables
    requires fd in t.clients && t.clients[fd].bytesSentTotal <= size
  {
    var cd := t.clients[fd];
    match SendStep(size, cd.bytesSentTotal, sent)
    case Advanced(n) => t.(clients := t.clients[fd := cd.(bytesSentTotal := n, lastActivity := now)])
    case _ => Closing(t, fd)
  }

  // ---------------------------------------------------------------------
  // _checkTimeouts

  /** A client idle for at least the timeout period. */
  predicate Idle(cd: ClientData, now: int, period: int)
  {
    now - cd.lastActivity >= period
  }

  /** The fds of order are distinct and all in the table. */
  predicate Pending(order: seq<int>, clients: map<int, ClientData>)
  {
    && (forall i, j :: 0 <= i < j < |order| ==> order[i] != order[j])
    && (forall i :: 0 <= i < |order| ==> order[i] in clients)
  }

  /** order lists every key of the table once: the iteration order of the
      unordered map. */
  predicate KeyOrder(order: seq<int>, clients: map<int, ClientData>)
  {
    Pending(order, clients) && forall fd :: fd in clients ==> fd in order
  }

  /** The sweep over the clients in iteration order: an idle client without
      a CGI child is closed; the first idle client with one gets a fresh
      last_activity, a 500, the switch to write and the teardown of its
      link, and the sweep stops there (that client is returned). */
  function Sweep(t: Tables, order: seq<int>, now: int, period: int): (r: (Tables, Option<int>))
    requires Pending(order, t.clients)
    decreases |order|
  {
    if order == [] then (t, None)
    else
      var fd := order[0];
      var cd := t.clients[fd];
      if Idle(cd, now, period) then
        if cd.cgi.pid == 0 then
          assert forall i :: 0 <= i < |order[1..]| ==> order[1..][i] == order[i + 1];
          Sweep(Closing(t, fd), order[1..], now, period)
        else (PipeClosing(Modifying(Touched(t, fd, now), fd), fd, cd.cgi.fdIn, cd.cgi), Some(fd))
      else Sweep(t, order[1..], now, period)
  }

  // ---------------------------------------------------------------------
  // The client read event

  /** What the read event of _handleEvent does once _getClientRequest
      returned 0: prepareResponse on the request path, and _executeCgi when
      it hands the request to CGI; the client is switched to write when
      either of them answers (1).  A client the parser left without a
      location (see InvalidRequestReachesPrepare) gets a 400 and the switch
      to write instead. */
  function AnswerSpec(t: Tables, fd: int, c: Conn, fs: FileSystem, garbage: int, launch: Launch): (Tables, Conn)
    requires fd in t.clients
  {
    if c.location.None? then (Modifying(t, fd), Errored(c, 400, fs))
    else
      var p := PrepareSpec(c.location.value, c.request.path, 200, fs, c.full, garbage);
      var c1 := c.(full := p.1);
      if p.0 == 1 then (Modifying(t, fd), c1)
      else
        var e := LaunchSpec(t, fd, c1, launch, fs);
        if e.0 == 1 then (Modifying(e.1, fd), e.2) else (e.1, e.2)
  }

  /** The read event of _handleEvent on a client socket. */
  function ClientReadSpec(t: Tables, sockets: map<int, seq<ServerData>>, fd: int, c: Conn,
                          bytes: int, data: string, now: int, fs: FileSystem,
                          garbage: int, launch: Launch): (Tables, Conn)
    requires Bound(t, sockets, fd)
  {
    var g := RequestSpec(t, sockets, fd, c, bytes, data, now, fs);
    if g.0 != 0 then (g.1, g.2) else AnswerSpec(g.1, fd, g.2, fs, garbage, launch)
  }

  // ---------------------------------------------------------------------
  // The server

  class Webserv {
    var keepRunning: bool
    var epollFd: int
    var eventArraySize: nat
    var servers: seq<ServerData>
    var clients: map<int, ClientData>
    var pipeMap: map<int, int>
    var serverSockets: map<int, seq<ServerData>>
    var chunkSize: nat
    var timeoutPeriod: int
    /** The epoll interest list, and the effects on the process's fds and
        on other processes, in order. */
    var interest: map<int, EventBits>
    var closed: seq<int>
    var killed: seq<int>

    function T(): Tables
      reads this
    {
      Tables(clients, pipeMap, interest, closed, killed)
    }

    function Fixed(): Setup
      reads this
    {
      Setup(keepRunning, epollFd, eventArraySize, servers, serverSockets, chunkSize, timeoutPeriod)
    }

    /** The objects of a client's entry. */
    function Owned(fd: int): set<object>
      reads this
    {
      if fd in clients then {clients[fd].request, clients[fd].response} else {}
    }

    /** The responses of all clients. */
    function Responses(): set<object>
      reads this
    {
      set fd | fd in clients :: clients[fd].response
    }

    /** Webserv(): running, no epoll instance yet, an event array of 16, 4096
        byte chunks, a 5 second timeout, and everything else empty. */
    constructor ()
      ensures keepRunning && epollFd == -1 && eventArraySize == 16
      ensures chunkSize == 4096 && timeoutPeriod == 5
      ensures servers == [] && serverSockets == map[]
      ensures T() == Tables(map[], map[], map[], [], [])
    {
      keepRunning := true;
      epollFd := -1;
      eventArraySize := 16;
      chunkSize := 4096;
      timeoutPeriod := 5;
      servers := [];
      clients := map[];
      pipeMap := map[];
      serverSockets := map[];
      interest := map[];
      closed := [];
      killed := [];
    }

    /** close(fd). */
    method CloseFd(fd: int)
      modifies this
      ensures T() == ClosedFd(old(T()), fd) && Fixed() == old(Fixed())
    {
      interest := interest - {fd};
      closed := closed + [fd];
    }

    /** _closeClientFd: EPOLL_CTL_DEL, close, erase. */
    method CloseClientFd(fd: int)
      modifies this
      ensures T() == Closing(old(T()), fd) && Fixed() == old(Fixed())
    {
      CloseFd(fd);
      clients := clients - {fd};
    }

    /** _modifyEpollSocketOut. */
    method ModifyEpollSocketOut(fd: int)
      modifies this
      ensures T() == Modifying(old(T()), fd) && Fixed() == old(Fixed())
    {
      if fd in interest {
        interest := interest[fd := WriteBits];
      } else {
        CloseClientFd(fd);
      }
    }

    /** Writes cgi into the client's entry when it is still in the table
        (the CgiData& of the source). */
    method StoreCgi(clientFd: int, cgi: CgiData)
      modifies this
      ensures clients == if clientFd in old(clients)
        then old(clients)[clientFd := old(clients[clientFd]).(cgi := cgi)] else old(clients)
      ensures pipeMap == old(pipeMap) && interest == old(interest)
      ensures closed == old(closed) && killed == old(killed) && Fixed() == old(Fixed())
    {
      if clientFd in clients {
        clients := clients[clientFd := clients[clientFd].(cgi := cgi)];
      }
    }

    /** _closeCgiPipe(pipe_fd, cgi): the pipe is closed and erased; closing
        the body pipe zeroes fd_out, closing any other pipe zeroes fd_in,
        closes the body pipe when it is open, and kills the child. */
    method CloseCgiPipe(pipeFd: int, clientFd: int, cgi: CgiData)
      modifies this
      ensures T() == PipeClosing(old(T()), clientFd, pipeFd, cgi) && Fixed() == old(Fixed())
      decreases if pipeFd == cgi.fdOut then 0 else 1
    {
      CloseFd(pipeFd);
      pipeMap := pipeMap - {pipeFd};
      if pipeFd == cgi.fdOut {
        StoreCgi(clientFd, cgi.(fdOut := 0));
      } else {
        var cur := cgi.(fdIn := 0);
        StoreCgi(clientFd, cur);
        if cur.fdOut != 0 {
          CloseCgiPipe(cur.fdOut, clientFd, cur);
          cur := cur.(fdOut := 0);
        }
        killed := killed + [cur.pid];
        cur := cur.(pid := 0);
        StoreCgi(clientFd, cur);
        assert Elements(ClosePipe(pipeFd, cgi, old(pipeMap)).2)
          == {pipeFd} + (if cgi.fdOut != 0 then {cgi.fdOut} else {});
      }
    }

    /** _handleConnection: a failed accept changes nothing; otherwise the
        entry for the new fd is made (or found) and given last_activity and
        server_fd, and the socket is registered for EPOLLIN, the client
        being closed when fcntl or the registration fails. */
    method HandleConnection(serverFd: int, acceptFd: int, now: int, nonBlockOk: bool, addOk: bool)
      modifies this
      ensures Fixed() == old(Fixed())
      ensures acceptFd == -1 ==> T() == old(T())
      ensures acceptFd != -1 && !(nonBlockOk && addOk) ==> T() == Closing(old(T()), acceptFd)
      ensures acceptFd != -1 && nonBlockOk && addOk ==>
        && acceptFd in clients
        && T() == old(T()).(clients := old(clients)[acceptFd := clients[acceptFd]],
                            interest := old(interest)[acceptFd := ReadBits])
        && (acceptFd in old(clients) ==>
              clients[acceptFd] == old(clients[acceptFd]).(lastActivity := now, serverFd := serverFd))
        && (acceptFd !in old(clients) ==>
              && fresh(clients[acceptFd].request) && fresh(clients[acceptFd].response)
              && clients[acceptFd]
                 == Blank(clients[acceptFd].request, clients[acceptFd].response).(lastActivity := now, serverFd := serverFd)
              && Contents(clients[acceptFd].request, clients[acceptFd].response) == BlankConn)
    {
      if acceptFd == -1 {
        return;
      }
      if acceptFd !in clients {
        var rq := new Request();
        var rs := new Response();
        clients := clients[acceptFd := Blank(rq, rs)];
      }
      clients := clients[acceptFd := clients[acceptFd].(lastActivity := now, serverFd := serverFd)];
      if !nonBlockOk || !addOk {
        CloseClientFd(acceptFd);
        assert clients == old(clients) - {acceptFd};
        return;
      }
      interest := interest[acceptFd := ReadBits];
    }

    /** _getTargetServer: among the servers bound to the client's listening
        socket, the first naming the Host (cut at ':'), else the first. */
    method GetTargetServer(fd: int, host: string)
      requires Bound(T(), serverSockets, fd)
      modifies this
      ensures T() == old(T()).(clients := old(clients)[fd := old(clients[fd]).(
        server := Some(TargetServer(old(serverSockets)[old(clients[fd]).serverFd], host)))])
      ensures Fixed() == old(Fixed())
    {
      var hostname := HostName(host);
      var list := serverSockets[clients[fd].serverFd];
      var i := 0;
      while i < |list|
        invariant 0 <= i <= |list|
        invariant FirstNamed(list, hostname, 0) == FirstNamed(list, hostname, i)
      {
        if hostname in list[i].serverNames {
          clients := clients[fd := clients[fd].(server := Some(list[i]))];
          return;
        }
        i := i + 1;
      }
      clients := clients[fd := clients[fd].(server := Some(list[0]))];
    }

    /** _getTargetLocation. */
    method GetTargetLocation(fd: int, fs: FileSystem) returns (rc: int)
      requires fd in clients && clients[fd].server.Some?
      modifies this, clients[fd].request, clients[fd].response
      ensures var cd := old(clients[fd]);
        (rc, T(), Contents(cd.request, cd.response))
          == LocateSpec(old(T()), fd, old(Contents(cd.request, cd.response)), fs)
      ensures Fixed() == old(Fixed())
    {
      var cd := clients[fd];
      var locations := cd.server.value.locations;
      var path := cd.request.path;
      var i := 0;
      while i < |locations|
        invariant 0 <= i <= |locations|
        invariant MatchFrom(locations, path, i) == MatchLocation(locations, path)
      {
        var prefix := locations[i].path;
        if StartsWith(path, prefix) {
          cd.response.location := Some(locations[i]);
          var rest := path[|prefix|..];
          if !FrontIs(rest, '/') {
            rest := "/" + rest;
          }
          cd.request.path := rest;
          return 0;
        }
        i := i + 1;
      }
      if cd.response.location.None? {
        cd.response.PrepareResponseError(404, fs);
        ModifyEpollSocketOut(fd);
      }
      return 1;
    }

    /** _checkRequestValid: 405, then 413, then the redirect. */
    method CheckRequestValid(fd: int, fs: FileSystem) returns (rc: int)
      requires fd in clients && clients[fd].response.location.Some?
      modifies this, clients[fd].response
      ensures var cd := old(clients[fd]);
        (rc, T(), Contents(cd.request, cd.response))
          == CheckSpec(old(T()), fd, old(Contents(cd.request, cd.response)), fs)
      ensures Fixed() == old(Fixed())
    {
      var cd := clients[fd];
      var location := cd.response.location.value;
      if cd.request.httpMethod !in location.allowedMethods {
        cd.response.PrepareResponseError(405, fs);
        ModifyEpollSocketOut(fd);
        return 1;
      }
      if cd.request.contentLength > location.clientMaxBodySize {
        cd.response.PrepareResponseError(413, fs);
        ModifyEpollSocketOut(fd);
        return 1;
      }
      if location.redirectPath != "" {
        var full := "HTTP/1.1 " + IntToString(location.redirectCode) + " ";
        if location.redirectCode == 301 {
          full := full + "Moved Permanently\r\n";
        } else if location.redirectCode == 302 {
          full := full + "Found\r\n";
        }
        full := full + ("Location: " + location.redirectPath + "\r\nContent-Length: 0\r\n\r\n");
        cd.response.fullResponse := full;
        ModifyEpollSocketOut(fd);
        return 1;
      }
      return 0;
    }

    /** The header stage of _getClientRequest. */
    method ReadHeaders(fd: int, now: int, fs: FileSystem) returns (rc: int)
      requires Bound(T(), serverSockets, fd)
      modifies this, clients[fd].request, clients[fd].response
      ensures var cd := old(clients[fd]);
        (rc, T(), Contents(cd.request, cd.response))
          == HeaderSpec(old(T()), old(serverSockets), fd, old(Contents(cd.request, cd.response)), now, fs)
      ensures Fixed() == old(Fixed())
    {
      var request := clients[fd].request;
      ParseHeaders(request);
      GetTargetServer(fd, request.headers["Host"]);
      if request.status != Invalid {
        rc := RouteRequest(fd, now, fs);
        return;
      }
      clients := clients[fd := clients[fd].(lastActivity := now)];
      rc := 0;
    }

    /** The parse of the header stage, and the Host lookup that inserts an
        empty field when absent. */
    static method ParseHeaders(request: Request)
      modifies request
      ensures request.State() == Parsed(old(request.State()))
    {
      var status := request.ParseRequest();
      request.status := status;
      if "Host" !in request.headers {
        request.headers := request.headers["Host" := ""];
      }
    }

    /** The routing part of _getClientRequest. */
    method RouteRequest(fd: int, now: int, fs: FileSystem) returns (rc: int)
      requires fd in clients && clients[fd].server.Some?
      modifies this, clients[fd].request, clients[fd].response
      ensures var cd := old(clients[fd]);
        (rc, T(), Contents(cd.request, cd.response))
          == RouteSpec(old(T()), fd, old(Contents(cd.request, cd.response)), now, fs)
      ensures Fixed() == old(Fixed())
    {
      var request := clients[fd].request;
      var found := GetTargetLocation(fd, fs);
      if found != 0 {
        return 4;
      }
      var checked := CheckRequestValid(fd, fs);
      if checked != 0 {
        return 3;
      }
      clients := clients[fd := clients[fd].(lastActivity := now)];
      rc := if request.status == New || request.status == FullHeader then 2 else 0;
    }

    /** _getClientRequest, given what recv returned (bytes) and the bytes it
        read (data). */
    method GetClientRequest(fd: int, bytes: int, data: string, now: int, fs: FileSystem) returns (rc: int)
      requires Bound(T(), serverSockets, fd)
      requires bytes > 0 ==> |data| == bytes <= chunkSize
      modifies this, clients[fd].request, clients[fd].response
      ensures var cd := old(clients[fd]);
        (rc, T(), Contents(cd.request, cd.response))
          == RequestSpec(old(T()), old(serverSockets), fd, old(Contents(cd.request, cd.response)),
                         bytes, data, now, fs)
      ensures Fixed() == old(Fixed())
    {
      var request := clients[fd].request;
      if bytes <= 0 {
        CloseClientFd(fd);
        return 1;
      }
      request.raw := request.raw + data;
      if request.status == New && Contains(request.raw, "\r\n\r\n") {
        rc := ReadHeaders(fd, now, fs);
        return;
      } else if request.status == FullHeader {
        var status := request.GetRequestBody();
        request.status := status;
      }
      clients := clients[fd := clients[fd].(lastActivity := now)];
      rc := if request.status == New || request.status == FullHeader then 2 else 0;
    }

    /** _sendClientResponse, given what send returned; send is handed at
        most the next chunk. */
    method SendClientResponse(fd: int, sent: int, now: int)
      requires fd in clients && clients[fd].bytesSentTotal <= |clients[fd].response.fullResponse|
      requires sent <= ChunkLen(chunkSize, |clients[fd].response.fullResponse|, clients[fd].bytesSentTotal)
      modifies this
      ensures T() == SendSpec(old(T()), fd, |old(clients[fd].response.fullResponse)|, sent, now)
      ensures Fixed() == old(Fixed())
    {
      var cd := clients[fd];
      var size := |cd.response.fullResponse|;
      if size == cd.bytesSentTotal {
        CloseClientFd(fd);
        return;
      }
      if sent <= 0 {
        CloseClientFd(fd);
      } else if sent + cd.bytesSentTotal == size {
        CloseClientFd(fd);
      } else {
        clients := clients[fd := cd.(bytesSentTotal := cd.bytesSentTotal + sent, lastActivity := now)];
      }
    }

    /** _sendCgiRequest, given what write returned; write is handed at most
        the next chunk of the body.  A pipe whose client is no longer in the
        table is closed and forgotten (see OrphanPipeSignalsGroup). */
    method SendCgiRequest(pipeFd: int, written: int, now: int, fs: FileSystem)
      requires pipeFd in pipeMap
      requires var fd := pipeMap[pipeFd];
        fd in clients ==>
          && clients[fd].bytesWriteTotal <= |clients[fd].request.body|
          && written <= ChunkLen(chunkSize, |clients[fd].request.body|, clients[fd].bytesWriteTotal)
      modifies this, Owned(pipeMap[pipeFd])
      ensures var fd := old(pipeMap[pipeFd]);
        fd !in old(clients) ==> T() == Orphaned(old(T()), pipeFd)
      ensures var fd := old(pipeMap[pipeFd]);
        fd in old(clients) ==>
          var cd := old(clients[fd]);
          (T(), Contents(cd.request, cd.response))
            == CgiWriteSpec(old(T()), pipeFd, old(Contents(cd.request, cd.response)), written, now, fs)
      ensures Fixed() == old(Fixed())
    {
      var fd := pipeMap[pipeFd];
      if fd !in clients {
        CloseFd(pipeFd);
        pipeMap := pipeMap - {pipeFd};
        return;
      }
      var cd := clients[fd];
      if cd.bytesWriteTotal == |cd.request.body| {
        CloseCgiPipe(pipeFd, fd, cd.cgi);
        return;
      }
      clients := clients[fd := cd.(lastActivity := now)];
      if written < 0 {
        cd.response.PrepareResponseError(500, fs);
        ModifyEpollSocketOut(fd);
        CloseCgiPipe(cd.cgi.fdIn, fd, cd.cgi);
        return;
      }
      clients := clients[fd := clients[fd].(bytesWriteTotal := cd.bytesWriteTotal + written)];
      assert WriteStep(|cd.request.body|, cd.bytesWriteTotal, written) == Wrote(cd.bytesWriteTotal + written);
      assert clients == old(clients)[fd := cd.(lastActivity := now, bytesWriteTotal := cd.bytesWriteTotal + written)];
      assert Contents(cd.request, cd.response) == old(Contents(cd.request, cd.response));
    }

    /** _getCgiResponse, given what read returned (bytes) and the bytes it
        read (data).  A pipe whose client is no longer in the table is
        closed and forgotten (see OrphanPipeSignalsGroup). */
    method GetCgiResponse(pipeFd: int, bytes: int, data: string, now: int, fs: FileSystem)
      requires pipeFd in pipeMap
      requires bytes > 0 ==> |data| == bytes <= chunkSize
      modifies this, Owned(pipeMap[pipeFd])
      ensures var fd := old(pipeMap[pipeFd]);
        fd !in old(clients) ==> T() == Orphaned(old(T()), pipeFd)
      ensures var fd := old(pipeMap[pipeFd]);
        fd in old(clients) ==>
          var cd := old(clients[fd]);
          (T(), Contents(cd.request, cd.response))
            == CgiReadSpec(old(T()), pipeFd, old(Contents(cd.request, cd.response)), bytes, data, now, fs)
      ensures Fixed() == old(Fixed())
    {
      var fd := pipeMap[pipeFd];
      if fd !in clients {
        CloseFd(pipeFd);
        pipeMap := pipeMap - {pipeFd};
        return;
      }
      var cd := clients[fd];
      var response := cd.response;
      clients := clients[fd := cd.(lastActivity := now)];
      if bytes < 0 {
        response.PrepareResponseError(500, fs);
        ModifyEpollSocketOut(fd);
        CloseCgiPipe(pipeFd, fd, cd.cgi);
        return;
      } else if bytes > 0 {
        response.fullResponse := response.fullResponse + data;
      }
      if bytes == 0 {
        response.HandleCgiResponse(fs);
        ModifyEpollSocketOut(fd);
        CloseCgiPipe(pipeFd, fd, cd.cgi);
      }
    }

    /** _connectCgi(client_fd, fd_in, fd_out), given whether each epoll
        registration succeeds; the fcntl results are ignored, as in the
        source. */
    method ConnectCgi(fd: int, fdIn: int, fdOut: int, outAddOk: bool, inAddOk: bool, fs: FileSystem)
      requires fd in clients
      modifies this, clients[fd].response
      ensures var cd := old(clients[fd]);
        (T(), Contents(cd.request, cd.response))
          == ConnectSpec(old(T()), fd, old(Contents(cd.request, cd.response)), fdIn, fdOut, outAddOk, inAddOk, fs)
      ensures Fixed() == old(Fixed())
    {
      var cd := clients[fd];
      var cgi := cd.cgi.(clientFd := fd);
      clients := clients[fd := cd.(cgi := cgi)];
      var m := cd.request.httpMethod;
      if m == Post || m == Delete {
        if !outAddOk {
          AbandonLink(fd, fdIn, fdOut, cgi, fs);
          return;
        }
        cgi := cgi.(fdOut := fdOut);
        LinkBody(fd, fdOut, cgi);
      } else {
        CloseFd(fdOut);
      }
      ConnectInput(fd, fdIn, cgi, inAddOk, fs);
    }

    /** The registered body pipe of _connectCgi: mapped to the client,
        watched for EPOLLOUT and stored in its CgiData. */
    method LinkBody(fd: int, fdOut: int, cgi: CgiData)
      requires fd in clients
      modifies this
      ensures T() == old(T()).(clients := old(clients)[fd := old(clients[fd]).(cgi := cgi)],
                               pipes := old(pipeMap)[fdOut := fd],
                               interest := old(interest)[fdOut := WriteBits])
      ensures Fixed() == old(Fixed())
    {
      pipeMap := pipeMap[fdOut := fd];
      interest := interest[fdOut := WriteBits];
      clients := clients[fd := clients[fd].(cgi := cgi)];
    }

    /** A failed body-pipe registration of _connectCgi: 500, the switch to
        write, fd_in closed, and _closeCgiPipe(fd_out) on a CgiData whose
        fd_out is not set yet. */
    method AbandonLink(fd: int, fdIn: int, fdOut: int, cgi: CgiData, fs: FileSystem)
      requires fd in clients
      modifies this, clients[fd].response
      ensures var cd := old(clients[fd]);
        && T() == PipeClosing(ClosedFd(Modifying(old(T()), fd), fdIn), fd, fdOut, cgi)
        && Contents(cd.request, cd.response) == Errored(old(Contents(cd.request, cd.response)), 500, fs)
      ensures Fixed() == old(Fixed())
    {
      clients[fd].response.PrepareResponseError(500, fs);
      ModifyEpollSocketOut(fd);
      CloseFd(fdIn);
      CloseCgiPipe(fdOut, fd, cgi);
    }

    /** The output-pipe registration of _connectCgi. */
    method ConnectInput(fd: int, fdIn: int, cgi: CgiData, inAddOk: bool, fs: FileSystem)
      requires fd in clients
      modifies this, clients[fd].response
      ensures var cd := old(clients[fd]);
        (T(), Contents(cd.request, cd.response))
          == InputStage(old(T()), fd, old(Contents(cd.request, cd.response)), fdIn, cgi, inAddOk, fs)
      ensures Fixed() == old(Fixed())
    {
      var response := clients[fd].response;
      if !inAddOk {
        response.PrepareResponseError(500, fs);
        ModifyEpollSocketOut(fd);
        CloseCgiPipe(fdIn, fd, cgi);
        return;
      }
      pipeMap := pipeMap[fdIn := fd];
      interest := interest[fdIn := PipeReadBits];
      clients := clients[fd := clients[fd].(cgi := cgi.(fdIn := fdIn))];
    }

    /** if (fd) close(fd). */
    method CloseIfOpen(fd: int)
      modifies this
      ensures T() == CloseIfSet(old(T()), fd) && Fixed() == old(Fixed())
    {
      if fd != 0 {
        CloseFd(fd);
      }
    }

    /** _endCgi. */
    method EndCgi(fdRes: (int, int), fdBody: (int, int), fd: int, fs: FileSystem) returns (rc: int)
      requires fd in clients
      modifies this, clients[fd].response
      ensures var cd := old(clients[fd]);
        (rc, T(), Contents(cd.request, cd.response))
          == EndSpec(old(T()), old(Contents(cd.request, cd.response)), fdRes, fdBody, fs)
      ensures Fixed() == old(Fixed())
    {
      var response := clients[fd].response;
      CloseIfOpen(fdRes.0);
      CloseIfOpen(fdRes.1);
      CloseIfOpen(fdBody.0);
      CloseIfOpen(fdBody.1);
      response.PrepareResponseError(500, fs);
      return 1;
    }

    /** _executeCgi, parent side of fork (the child is not modelled). */
    method ExecuteCgi(fd: int, launch: Launch, fs: FileSystem) returns (rc: int)
      requires fd in clients && launch.pid != 0
      modifies this, clients[fd].response
      ensures var cd := old(clients[fd]);
        (rc, T(), Contents(cd.request, cd.response))
          == LaunchSpec(old(T()), fd, old(Contents(cd.request, cd.response)), launch, fs)
      ensures Fixed() == old(Fixed())
    {
      if !launch.resOk || !launch.bodyOk {
        rc := EndCgi(launch.fdRes, launch.fdBody, fd, fs);
        return;
      }
      if launch.pid == -1 {
        rc := EndCgi(launch.fdRes, launch.fdBody, fd, fs);
        return;
      }
      clients := clients[fd := clients[fd].(cgi := clients[fd].cgi.(pid := launch.pid))];
      CloseFd(launch.fdBody.0);
      CloseFd(launch.fdRes.1);
      ConnectCgi(fd, launch.fdRes.0, launch.fdBody.1, launch.outAddOk, launch.inAddOk, fs);
      return 0;
    }

    /** The answer of the read event once the request is complete. */
    method AnswerRequest(fd: int, fs: FileSystem, garbage: int, launch: Launch)
      requires fd in clients && launch.pid != 0
      modifies this, clients[fd].response
      ensures var cd := old(clients[fd]);
        (T(), Contents(cd.request, cd.response))
          == AnswerSpec(old(T()), fd, old(Contents(cd.request, cd.response)), fs, garbage, launch)
      ensures Fixed() == old(Fixed())
    {
      var cd := clients[fd];
      var response := cd.response;
      if response.location.None? {
        response.PrepareResponseError(400, fs);
        ModifyEpollSocketOut(fd);
        return;
      }
      var prepared := response.PrepareResponse(cd.request.path, 200, fs, garbage);
      if prepared == 1 {
        ModifyEpollSocketOut(fd);
        return;
      }
      var executed := ExecuteCgi(fd, launch, fs);
      if executed == 1 {
        ModifyEpollSocketOut(fd);
      }
    }

    /** The EPOLLIN branch of _handleEvent for a client socket, given what
        recv returned, the files, the st_size a failed stat leaves, and
        what pipe and fork give a CGI launch. */
    method HandleClientRead(fd: int, bytes: int, data: string, now: int, fs: FileSystem,
                            garbage: int, launch: Launch)
      requires Bound(T(), serverSockets, fd)
      requires bytes > 0 ==> |data| == bytes <= chunkSize
      requires launch.pid != 0
      modifies this, clients[fd].request, clients[fd].response
      ensures var cd := old(clients[fd]);
        (T(), Contents(cd.request, cd.response))
          == ClientReadSpec(old(T()), old(serverSockets), fd, old(Contents(cd.request, cd.response)),
                            bytes, data, now, fs, garbage, launch)
      ensures Fixed() == old(Fixed())
    {
      var rc := GetClientRequest(fd, bytes, data, now, fs);
      if rc == 0 {
        AnswerRequest(fd, fs, garbage, launch);
      }
    }

    /** The CGI branch of _checkTimeouts: last_activity refreshed, 500, the
        switch to write, and _closeCgiPipe(fd_in) on the client's CgiData. */
    method TimeoutCgi(fd: int, now: int, fs: FileSystem)
      requires fd in clients
      modifies this, clients[fd].response
      ensures var cd := old(clients[fd]);
        && T() == PipeClosing(Modifying(Touched(old(T()), fd, now), fd), fd, cd.cgi.fdIn, cd.cgi)
        && Contents(cd.request, cd.response) == Errored(old(Contents(cd.request, cd.response)), 500, fs)
      ensures Fixed() == old(Fixed())
    {
      var cd := clients[fd];
      clients := clients[fd := cd.(lastActivity := now)];
      cd.response.PrepareResponseError(500, fs);
      ModifyEpollSocketOut(fd);
      CloseCgiPipe(cd.cgi.fdIn, fd, cd.cgi);
    }

    /** The loop of _checkTimeouts up to the first idle client with a CGI
        child, whose position is returned (|order| when there is none):
        the idle clients before it are closed. */
    method CloseIdle(now: int, order: seq<int>) returns (i: nat)
      requires Pending(order, clients)
      modifies this
      ensures i <= |order| && Pending(order[i..], clients)
      ensures Sweep(old(T()), order, now, timeoutPeriod) == Sweep(T(), order[i..], now, timeoutPeriod)
      ensures i < |order| ==> Idle(clients[order[i]], now, timeoutPeriod) && clients[order[i]].cgi.pid != 0
      ensures forall k :: k in clients ==> k in old(clients) && clients[k] == old(clients[k])
      ensures Fixed() == old(Fixed())
    {
      i := 0;
      while i < |order|
        invariant 0 <= i <= |order|
        invariant Pending(order[i..], clients)
        invariant Sweep(old(T()), order, now, timeoutPeriod) == Sweep(T(), order[i..], now, timeoutPeriod)
        invariant forall k :: k in clients ==> k in old(clients) && clients[k] == old(clients[k])
        invariant Fixed() == old(Fixed())
      {
        var fd := order[i];
        var cd := clients[fd];
        assert order[i..][1..] == order[i + 1..];
        if now - cd.lastActivity >= timeoutPeriod {
          if cd.cgi.pid != 0 {
            return;
          }
          CloseClientFd(fd);
        }
        i := i + 1;
      }
    }

    /** _checkTimeouts, over the clients in their iteration order. */
    method CheckTimeouts(now: int, order: seq<int>, fs: FileSystem)
      requires KeyOrder(order, clients)
      modifies this, Responses()
      ensures T() == Sweep(old(T()), order, now, old(timeoutPeriod)).0
      ensures var hit := Sweep(old(T()), order, now, old(timeoutPeriod)).1;
        hit.Some? ==>
          && hit.value in old(clients)
          && var cd := old(clients[hit.value]);
             Contents(cd.request, cd.response) == Errored(old(Contents(cd.request, cd.response)), 500, fs)
      ensures var hit := Sweep(old(T()), order, now, old(timeoutPeriod)).1;
        forall r: Response :: r in old(Responses()) && (hit.None? || r != old(clients[hit.value].response)) ==>
          r.fullResponse == old(r.fullResponse) && r.location == old(r.location)
      ensures Fixed() == old(Fixed())
    {
      var i := CloseIdle(now, order);
      if i < |order| {
        var fd := order[i];
        assert clients[fd] == old(clients[fd]);
        TimeoutCgi(fd, now, fs);
      }
    }
  }

  // ---------------------------------------------------------------------
  // Properties of the handlers

  /** As written, _getClientRequest returns 0 for a request the parser
      marks INVALID, before any location is looked up: for a fresh
      client whose first recv is an empty line, the read event goes on to
      prepareResponse with no location, which dereferences it. */
  lemma InvalidRequestReachesPrepare(t: Tables, sockets: map<int, seq<ServerData>>, fd: int, now: int, fs: FileSystem)
    requires Bound(t, sockets, fd)
    ensures var r := RequestSpec(t, sockets, fd, BlankConn, 4, "\r\n\r\n", now, fs);
      r.0 == 0 && r.2.request.status == Invalid && r.2.location.None?
  {
    var raw := "\r\n\r\n";
    assert "" + raw == raw;
    assert Contains(raw, "\r\n\r\n") by { assert OccursAt(raw, "\r\n\r\n", 0); }
    var s1 := BlankConn.request.(raw := raw);
    EmptyLineParsesInvalid(s1);
    assert Parsed(s1).status == Invalid;
  }

  /** An empty line is not a request line. */
  lemma EmptyLineParsesInvalid(s: Snapshot)
    requires s.raw == "\r\n\r\n"
    ensures ParseSpec(s).0 == Invalid
  {
    assert s.raw == "\r" + ['\n'] + "\r\n";
    Streams.GetFirstLine("\r", '\n', "\r\n");
    var rd := Streams.GetLine(Streams.Open(s.raw), '\n');
    assert rd.value.GetOr("") == "\r";
    assert FindChar("\r", ' ', 0).None?;
    assert RFindChar("\r", ' ').None?;
    assert RequestLineSpec("\r", s).0 == 1;
  }

  /** A request the read event answers (0) without a location is one the
      parser rejected, so the 400 of AnswerSpec replaces only the null
      dereference; a request that goes on reading (2) still is Reading. */
  lemma UnroutedRequestIsInvalid(t: Tables, sockets: map<int, seq<ServerData>>, fd: int, c: Conn,
                                 bytes: int, data: string, now: int, fs: FileSystem)
    requires Bound(t, sockets, fd) && Reading(c)
    ensures var r := RequestSpec(t, sockets, fd, c, bytes, data, now, fs);
      r.0 == 0 && r.2.location.None? ==> r.2.request.status == Invalid
    ensures var r := RequestSpec(t, sockets, fd, c, bytes, data, now, fs);
      r.0 == 2 ==> Reading(r.2)
  {
    if bytes > 0 {
      var s1 := c.request.(raw := c.request.raw + data);
      if s1.status == New && Contains(s1.raw, "\r\n\r\n") {
        HeaderOutcome(t, sockets, fd, c.(request := s1), now, fs);
      }
    }
  }

  /** The corrected read event: a request answered (0) before routing, which
      is one the parser rejected, gets the 400 error response and the client
      is switched to write; prepareResponse is not reached. */
  lemma UnroutedRequestAnswered(t: Tables, sockets: map<int, seq<ServerData>>, fd: int, c: Conn,
                                bytes: int, data: string, now: int, fs: FileSystem,
                                garbage: int, launch: Launch)
    requires Bound(t, sockets, fd) && Reading(c)
    ensures var g := RequestSpec(t, sockets, fd, c, bytes, data, now, fs);
      g.0 == 0 && g.2.location.None? ==>
        && g.2.request.status == Invalid
        && ClientReadSpec(t, sockets, fd, c, bytes, data, now, fs, garbage, launch)
           == (Modifying(g.1, fd), Errored(g.2, 400, fs))
        && (fd in g.1.interest ==>
              ClientReadSpec(t, sockets, fd, c, bytes, data, now, fs, garbage, launch).0.interest[fd] == WriteBits)
  {
    UnroutedRequestIsInvalid(t, sockets, fd, c, bytes, data, now, fs);
  }

  /** _getClientRequest's exits: 1 exactly when recv gave nothing; 0 only
      for a request that is FULL_BODY or INVALID, 2 only for one still NEW
      or FULL_HEADER; a NEW request whose buffer still lacks the empty line
      only has the bytes appended and last_activity refreshed. */
  lemma RequestOutcome(t: Tables, sockets: map<int, seq<ServerData>>, fd: int, c: Conn,
                       bytes: int, data: string, now: int, fs: FileSystem)
    requires Bound(t, sockets, fd)
    ensures var r := RequestSpec(t, sockets, fd, c, bytes, data, now, fs);
      && (r.0 == 1 <==> bytes <= 0)
      && (r.0 == 0 ==> r.2.request.status == FullBody || r.2.request.status == Invalid)
      && (r.0 == 2 ==> r.2.request.status == New || r.2.request.status == FullHeader)
    ensures var r := RequestSpec(t, sockets, fd, c, bytes, data, now, fs);
      bytes > 0 && c.request.status == New && !Contains(c.request.raw + data, "\r\n\r\n") ==>
        && r.0 == 2
        && r.1 == Touched(t, fd, now)
        && r.2 == c.(request := c.request.(raw := c.request.raw + data))
  {
    if bytes > 0 {
      var s1 := c.request.(raw := c.request.raw + data);
      if s1.status == New && Contains(s1.raw, "\r\n\r\n") {
        HeaderExits(t, sockets, fd, c.(request := s1), now, fs);
      }
    }
  }

  /** The header stage never exits with 1, and its 0 and 2 exits carry the
      status Touch tested. */
  lemma HeaderExits(t: Tables, sockets: map<int, seq<ServerData>>, fd: int, c: Conn, now: int, fs: FileSystem)
    requires Bound(t, sockets, fd)
    ensures var r := HeaderSpec(t, sockets, fd, c, now, fs);
      && r.0 != 1
      && (r.0 == 0 ==> r.2.request.status == FullBody || r.2.request.status == Invalid)
      && (r.0 == 2 ==> r.2.request.status == New || r.2.request.status == FullHeader)
  {
    var s2 := Parsed(c.request);
    var cd := t.clients[fd];
    var server := TargetServer(sockets[cd.serverFd], s2.headers["Host"]);
    var t1 := t.(clients := t.clients[fd := cd.(server := Some(server))]);
    if s2.status != Invalid {
      RouteExits(t1, fd, c.(request := s2), now, fs);
    }
  }

  /** The routing exits with 4, 3 or the refreshing exit, never with 1. */
  lemma RouteExits(t: Tables, fd: int, c: Conn, now: int, fs: FileSystem)
    requires fd in t.clients && t.clients[fd].server.Some?
    ensures var r := RouteSpec(t, fd, c, now, fs);
      && r.0 != 1
      && (r.0 == 0 ==> r.2.request.status == FullBody || r.2.request.status == Invalid)
      && (r.0 == 2 ==> r.2.request.status == New || r.2.request.status == FullHeader)
  {
  }

  /** The header stage answers without a location only when the parser
      rejected the request, and goes on reading only once routed. */
  lemma HeaderOutcome(t: Tables, sockets: map<int, seq<ServerData>>, fd: int, c: Conn, now: int, fs: FileSystem)
    requires Bound(t, sockets, fd)
    ensures var r := HeaderSpec(t, sockets, fd, c, now, fs);
      && (r.0 == 0 && r.2.location.None? ==> r.2.request.status == Invalid)
      && (r.0 == 2 ==> Reading(r.2))
  {
    var s2 := Parsed(c.request);
    if s2.status != Invalid {
      var cd := t.clients[fd];
      var server := TargetServer(sockets[cd.serverFd], s2.headers["Host"]);
      var t1 := t.(clients := t.clients[fd := cd.(server := Some(server))]);
      RouteLocated(t1, fd, c.(request := s2), now, fs);
    }
  }

  /** What the routing exits with 0 or 2 holds a location. */
  lemma RouteLocated(t: Tables, fd: int, c: Conn, now: int, fs: FileSystem)
    requires fd in t.clients && t.clients[fd].server.Some?
    ensures var r := RouteSpec(t, fd, c, now, fs);
      (r.0 == 0 || r.0 == 2) ==> r.2.location.Some? && r.2.request.status == c.request.status
  {
  }

  /** A request routed on (0 or 2) holds a location of its virtual server
      whose path prefixes the request path, its path has that prefix
      erased, and it passed every check; 4 means no location matched. */
  lemma RouteOutcome(t: Tables, fd: int, c: Conn, now: int, fs: FileSystem)
    requires fd in t.clients && t.clients[fd].server.Some?
    ensures var r := RouteSpec(t, fd, c, now, fs);
      var locations := t.clients[fd].server.value.locations;
      (r.0 == 0 || r.0 == 2) ==>
        && r.2.location.Some?
        && r.2.location.value in locations
        && PathMatches(c.request.path, r.2.location.value.path)
        && r.2.request.path == RoutedPath(c.request.path, r.2.location.value.path)
        && Validate(r.2.location.value, c.request.httpMethod, c.request.contentLength) == Pass
    ensures var r := RouteSpec(t, fd, c, now, fs);
      var locations := t.clients[fd].server.value.locations;
      r.0 == 4 <==> forall j :: 0 <= j < |locations| ==> !PathMatches(c.request.path, locations[j].path)
  {
    var locations := t.clients[fd].server.value.locations;
    match MatchLocation(locations, c.request.path)
    case Some(i) =>
      assert locations[i] in locations;
    case None =>
  }

  /** A send either closes the client or leaves it in the table with a
      larger offset still short of the response; it closes exactly when
      nothing was left, send failed, or this send finished the response. */
  lemma SendProgress(t: Tables, fd: int, chunkSize: nat, size: nat, sent: int, now: int)
    requires fd in t.clients && t.clients[fd].bytesSentTotal <= size
    requires sent <= ChunkLen(chunkSize, size, t.clients[fd].bytesSentTotal)
    ensures var r := SendSpec(t, fd, size, sent, now);
      var done := t.clients[fd].bytesSentTotal;
      && (fd !in r.clients <==> done == size || sent <= 0 || done + sent == size)
      && (fd !in r.clients ==> r == Closing(t, fd))
      && (fd in r.clients ==>
            && done < r.clients[fd].bytesSentTotal < size
            && r.clients[fd].bytesSentTotal == done + sent
            && r.clients[fd].lastActivity == now)
  {
    SendOffsetBounded(chunkSize, size, t.clients[fd].bytesSentTotal, sent);
  }

  /** As written, _sendCgiRequest and _getCgiResponse find the client with
      _clients_map[client_fd]: for a pipe whose client was already closed
      this makes a blank entry whose pid is 0, and the teardown then sends
      SIGKILL to pid 0, the server's own process group. */
  lemma OrphanPipeSignalsGroup(t: Tables, pipeFd: int, rq: Request, rs: Response, now: int, fs: FileSystem)
    requires pipeFd in t.pipes && t.pipes[pipeFd] !in t.clients && pipeFd != 0
    ensures var t1 := t.(clients := t.clients[t.pipes[pipeFd] := Blank(rq, rs)]);
      && CgiReadSpec(t1, pipeFd, BlankConn, 0, "", now, fs).0.killed == t.killed + [0]
      && CgiWriteSpec(t1, pipeFd, BlankConn, 0, now, fs).0.killed == t.killed + [0]
  {
    assert ClosePipe(pipeFd, NoCgi, t.pipes).3 == [0];
  }

  /** With the orphan branch, the event of a pipe whose client is gone
      closes and forgets that pipe and signals nobody. */
  lemma OrphanSignalsNobody(t: Tables, pipeFd: int)
    ensures var r := Orphaned(t, pipeFd);
      && r.killed == t.killed
      && r.clients == t.clients
      && pipeFd !in r.pipes && pipeFd !in r.interest
      && r.closed == t.closed + [pipeFd]
  {
  }

  /** The client a sweep stops at was idle and had a CGI child, and only
      that child is killed; a sweep that finds none kills nothing. */
  lemma {:induction false} SweepHit(t: Tables, order: seq<int>, now: int, period: int)
    requires Pending(order, t.clients)
    ensures var r := Sweep(t, order, now, period);
      r.1.Some? ==>
        && r.1.value in order && r.1.value in t.clients
        && Idle(t.clients[r.1.value], now, period)
        && t.clients[r.1.value].cgi.pid != 0
        && (r.0.killed == t.killed || r.0.killed == t.killed + [t.clients[r.1.value].cgi.pid])
    ensures var r := Sweep(t, order, now, period);
      r.1.None? ==> r.0.killed == t.killed
    decreases |order|
  {
    if order != [] {
      var fd := order[0];
      var cd := t.clients[fd];
      assert forall i :: 0 <= i < |order[1..]| ==> order[1..][i] == order[i + 1];
      if Idle(cd, now, period) {
        if cd.cgi.pid == 0 {
          SweepHit(Closing(t, fd), order[1..], now, period);
        }
      } else {
        SweepHit(t, order[1..], now, period);
      }
    }
  }

  /** A sweep that stops at no CGI client leaves exactly the clients that
      are not in order or not idle, unchanged, and leaves the pipes alone. */
  lemma {:induction false} SweepWithoutHit(t: Tables, order: seq<int>, now: int, period: int)
    requires Pending(order, t.clients)
    ensures var r := Sweep(t, order, now, period);
      r.1.None? ==>
        && (forall fd :: fd in r.0.clients <==>
              fd in t.clients && !(fd in order && Idle(t.clients[fd], now, period)))
        && (forall fd :: fd in r.0.clients ==> r.0.clients[fd] == t.clients[fd])
        && r.0.pipes == t.pipes
    decreases |order|
  {
    if order != [] {
      var fd := order[0];
      var cd := t.clients[fd];
      assert forall i :: 0 <= i < |order[1..]| ==> order[1..][i] == order[i + 1];
      if Idle(cd, now, period) {
        if cd.cgi.pid == 0 {
          SweepWithoutHit(Closing(t, fd), order[1..], now, period);
        }
      } else {
        SweepWithoutHit(t, order[1..], now, period);
      }
    }
  }

  /** A client that is not idle survives the sweep unchanged. */
  lemma {:induction false} SweepKeepsBusy(t: Tables, order: seq<int>, now: int, period: int, fd: int)
    requires Pending(order, t.clients)
    requires fd in t.clients && !Idle(t.clients[fd], now, period)
    ensures var r := Sweep(t, order, now, period);
      fd in r.0.clients && r.0.clients[fd] == t.clients[fd]
    decreases |order|
  {
    if order != [] {
      var first := order[0];
      var cd := t.clients[first];
      assert forall i :: 0 <= i < |order[1..]| ==> order[1..][i] == order[i + 1];
      if Idle(cd, now, period) {
        if cd.cgi.pid == 0 {
          SweepKeepsBusy(Closing(t, first), order[1..], now, period, fd);
        } else {
          ClosePipeKeepsClients(t, first, now);
        }
      } else {
        SweepKeepsBusy(t, order[1..], now, period, fd);
      }
    }
  }

  /** The teardown of a timed-out CGI client touches no other entry. */
  lemma ClosePipeKeepsClients(t: Tables, fd: int, now: int)
    requires fd in t.clients
    ensures var cd := t.clients[fd];
      var r := PipeClosing(Modifying(Touched(t, fd, now), fd), fd, cd.cgi.fdIn, cd.cgi);
      forall k :: k in t.clients && k != fd ==> k in r.clients && r.clients[k] == t.clients[k]
  {
  }

  /** The close() a non-zero fd gets, as a sequence. */
  function IfSet(fd: int): (s: seq<int>)
    ensures Elements(s) == {fd} - {0}
  {
    if fd != 0 then [fd] else []
  }

  lemma CloseIfSetLogs(t: Tables, fd: int)
    ensures var r := CloseIfSet(t, fd);
      && r.closed == t.closed + IfSet(fd)
      && r.interest == t.interest - ({fd} - {0})
      && r.clients == t.clients && r.pipes == t.pipes && r.killed == t.killed
  {
    if fd == 0 {
      assert t.closed + [] == t.closed;
      assert t.interest - ({fd} - {0}) == t.interest;
    }
  }

  /** _endCgi closes exactly the non-zero fds it is given, in order, and
      touches neither the table nor the pipes nor any child. */
  lemma EndClosesSetFds(t: Tables, fdRes: (int, int), fdBody: (int, int))
    ensures var r := EndClosing(t, fdRes, fdBody);
      var fds := {fdRes.0, fdRes.1, fdBody.0, fdBody.1} - {0};
      && r.clients == t.clients && r.pipes == t.pipes && r.killed == t.killed
      && r.closed == t.closed + IfSet(fdRes.0) + IfSet(fdRes.1) + IfSet(fdBody.0) + IfSet(fdBody.1)
      && Elements(IfSet(fdRes.0) + IfSet(fdRes.1) + IfSet(fdBody.0) + IfSet(fdBody.1)) == fds
      && r.interest == t.interest - fds
  {
    var t1 := CloseIfSet(t, fdRes.0);
    var t2 := CloseIfSet(t1, fdRes.1);
    var t3 := CloseIfSet(t2, fdBody.0);
    CloseIfSetLogs(t, fdRes.0);
    CloseIfSetLogs(t1, fdRes.1);
    CloseIfSetLogs(t2, fdBody.0);
    CloseIfSetLogs(t3, fdBody.1);
    IfSetElements(fdRes.0, fdRes.1, fdBody.0, fdBody.1);
  }

  lemma IfSetElements(a: int, b: int, c: int, d: int)
    ensures Elements(IfSet(a) + IfSet(b) + IfSet(c) + IfSet(d)) == {a, b, c, d} - {0}
  {
    ElementsConcat(IfSet(a), IfSet(b));
    ElementsConcat(IfSet(a) + IfSet(b), IfSet(c));
    ElementsConcat(IfSet(a) + IfSet(b) + IfSet(c), IfSet(d));
  }

  lemma ElementsConcat(a: seq<int>, b: seq<int>)
    ensures Elements(a + b) == Elements(a) + Elements(b)
  {
    assert forall x :: x in a + b <==> x in a || x in b;
  }

  /** A CGI launch whose pipes, fork and registrations all succeed links
      the client to the child: the pid and both pipe ends are stored, the
      pipes map back to the client, the child's ends are closed, and the
      response is left alone. */
  lemma LaunchLinks(t: Tables, fd: int, c: Conn, launch: Launch, fs: FileSystem)
    requires fd in t.clients
    requires launch.resOk && launch.bodyOk && launch.pid != -1 && launch.outAddOk && launch.inAddOk
    requires c.request.httpMethod == Post || c.request.httpMethod == Delete
    requires launch.fdRes.0 != launch.fdBody.1
    ensures var r := LaunchSpec(t, fd, c, launch, fs);
      && r.0 == 0 && r.2 == c
      && fd in r.1.clients
      && r.1.clients[fd].cgi == CgiData(launch.pid, fd, launch.fdRes.0, launch.fdBody.1)
      && r.1.pipes == t.pipes[launch.fdBody.1 := fd][launch.fdRes.0 := fd]
      && r.1.interest[launch.fdRes.0] == PipeReadBits && r.1.interest[launch.fdBody.1] == WriteBits
      && r.1.closed == t.closed + [launch.fdBody.0, launch.fdRes.1]
      && r.1.killed == t.killed
  {
  }
}

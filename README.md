# webserv in Dafny

A model of the core of webserv, a single-process HTTP/1.1 server. It uses
epoll. Its configuration is indentation-based. It serves static files,
error pages and directory listings, answers redirects, and runs Python
scripts as CGI children.

The model follows the C++ sources file by file:

| Dafny file | module | models |
|---|---|---|
| `webserv_config.dfy` | `ConfigParser` | `WebservConfig.cpp`: how the config file is read line by line, with the state machine START/SERVER/LOCATION; listen pairs and IPv4 folding; server and location directives; the logging level; inheritance of server-level defaults; sorting locations by path length |
| `request.dfy` | `HttpRequest` | `src/Request.cpp`: class `Request` with its fields, the request-line/target/query parser, the header loop, the Content-Length handling and the body stage |
| `request_parser.dfy` | `OneShotParser` | `requestParser.cpp`: the older one-shot parser that writes into a `Request` |
| `response_utils.dfy` | `ResponseUtils` | `ResponseUtils.cpp` and the header builder of `Response.cpp` |
| `response_directory.dfy` | `ResponseDirectory` | `ResponseDirectory.cpp` and both revisions of the directory listing rows |
| `response.dfy` | `HttpResponse` | `Response.cpp`: class `Response`; prepareResponse, error-page resolution, directory listing, CGI status rewriting |
| `webserv_events.dfy` | `Events` | the pure parts of `WebservEvents.cpp` and `Webserv.cpp`: event dispatch, virtual-host and location choice, validation, redirects, chunk sizes |
| `webserv_cgi.dfy` | `Cgi` | the pure parts of `WebservCgi.cpp`: the CGI environment, pipe teardown |
| `webserv.dfy` | `Server` | class `Webserv`: the client table, the pipe map and the epoll interest list. Its methods model the handlers of `Webserv.cpp`, `WebservEvents.cpp`, `WebservCgi.cpp` and `WebservUtils.cpp` |
| `strings.dfy`, `streams.dfy`, `http.dfy`, `config.dfy`, `filesystem.dfy`, `wrappers.dfy` | `Strings`, `Streams`, `Http`, `Config`, `Fs`, `Wrappers` | the parts of the C++ library the core relies on: `find`/`rfind`/`substr`, `std::stoi`/`stol`/`stoull`, `std::to_string`, `toupper`; `std::getline` and `operator>>` on an `istringstream`, with their eof/fail bits; the HTTP methods; the `Location`/`ServerData` records; the file system as a map from path to node |

Where the source updates a structure in place, so does the model:
- `Request`, `Response` and `Webserv` are classes whose methods have `modifies` clauses;
- the loops stay loops (`_getIndentation`, `_ipStringToDecimal`, the error-code and method loops of the config parser, `_checkParamsPriority`, the header and query loops, the environment loops of `_createEnvp`, `_checkTimeouts`).

Each method is proved equal to a function of the old state. The properties
the source promises are lemmas about those functions:
- round trips, e.g. a request built from a method, a target, header fields and a body parses back to exactly those parts;
- a response header's `Content-Length` is the exact length of the body that follows;
- the invariants the config loop keeps;
- the effects of the event handlers on the fd/pid bookkeeping.

Behaviour modelled as the code has it, even where it surprises:
- **Location matching:** the location chosen is the first one in the sorted list whose path is a character prefix of the request path. It need not end on a path segment: `/api` matches `/apiv2/x` (`Events.PrefixMatchCrossesSegments`).
- **Redirects:** a redirect code other than 301 or 302 gets no reason phrase and no line end (`Events.RedirectOtherCode`).
- **QUERY_STRING:** `_createEnvp` ends it with `&` after every pair, the last one too, because the check `it != end()` inside the loop always holds.
- **"autoindex: off" on a server block:** the line falls through to the `index:` branch and sets the index page (`ConfigParser.AutoindexOffSetsIndexPage`).
- **Directory listings:** the `Response.cpp` revision carries size and mtime over from the previous row, so `..` repeats them (`ResponseDirectory.DotDotRepeatsPreviousRow`). The `ResponseDirectory.cpp` revision shows `..` without them (`ResponseDirectory.DotDotShowsNoStats`).

Three paths of the code as written cannot have been meant, and the model corrects them:
- **Requests rejected before routing:** a request the parser rejects returns 0 before any location is looked up, so prepareResponse runs with no location and dereferences it (Finding 2). The model answers such a request with the 400 error response. A request that is INVALID only because its body is longer than its Content-Length has been routed already; it keeps its location and goes to prepareResponse, as in the code.
- **Index pages:** the index substitution can recurse forever (Finding 1). The model substitutes once.
- **Pipes whose client is gone:** `_sendCgiRequest` and `_getCgiResponse` find the pipe's client with `operator[]`. For a client that was erased, this inserts a blank entry whose CGI pid is 0, and closing the pipe then calls `kill(0, SIGKILL)` (Finding 3). In the model, `SendCgiRequest` and `GetCgiResponse` close and forget such a pipe and send no signal (`Server.OrphanSignalsNobody`).

## Model

| member | source | states |
|---|---|---|
| `Strings.Stoull` | src/Request.cpp:54 | a converted value lies in 0..2^64-1 |
| `Strings.SignedConversion` | WebservConfig.cpp:72 | std::stoi/std::stol: a converted value lies within the type's range |
| `Strings.StoullOfDecimal` | src/Request.cpp:53-57 | the decimal text of n, followed by a non-digit or nothing, converts to n |
| `Strings.StoiOfDecimal` | WebservConfig.cpp:72 | the decimal text of n <= INT_MAX converts to n |
| `Strings.StolOfDecimal` | WebservConfig.cpp:89 | the decimal text of n <= LONG_MAX converts to n |
| `Strings.NatToStringRoundTrip` | Response.cpp:153 | std::to_string of a size reads back as the same number |
| `Strings.IntToString` | WebservEvents.cpp:123 | std::to_string of an int reads back as the int: decimal digits whose value is the number, behind a '-' exactly when it is negative |
| `Strings.ToUpper` | WebservCgi.cpp:144 | toupper maps 'a'..'z' to 'A'..'Z' and leaves every other char alone |
| `Streams.GetLine` | src/Request.cpp:35 | std::getline: the text read has no delimiter and is exactly what lies between the old and new position, minus the delimiter; at the end of the text, eof is set and so is fail on an empty read; a stream that is not good reads nothing |
| `Streams.ExtractWord` | WebservConfig.cpp:122 | operator>> into a string: skips whitespace and returns a non-empty word without whitespace, or fails |
| `Streams.ExtractInt` | WebservConfig.cpp:134 | operator>> into an int: a value read lies in the int range |
| `Streams.ExtractSize` | WebservConfig.cpp:130 | operator>> into a size_t: a value read is at most SIZE_MAX |
| `Streams.TokensWithoutDelim` | src/Request.cpp:101 | no piece a getline loop yields contains the delimiter |
| `Streams.TokensRebuildText` | src/Request.cpp:101 | the pieces of a getline loop, each followed by its delimiter except a last piece that reaches the end, are exactly the text |
| `Streams.GetLineToEnd` | src/Request.cpp:51 | getline with a delimiter absent from the rest reads all of the rest and sets eof |
| `Streams.GetLineStopsAtDelimiter` | src/Request.cpp:51 | getline whose delimiter occurs in the rest succeeds without eof |
| `Http.MethodName` | WebservCgi.cpp:126-131 | the defined methods have non-empty names without spaces; UNDEFINED maps to "" (methods_map[] default) |
| `Http.MethodFromName` | src/Request.cpp:3-7 | the method table is the inverse of MethodName on GET, POST and DELETE and knows no other name |
| `Fs.ReadFile` | Response.cpp:119-125 | a file opens exactly when it exists and is openable, and then gives its content |
| `Fs.ReadDir` | Response.cpp:172-179 | opendir succeeds exactly on a node with a listing, and readdir gives that listing |
| `Fs.Stat` | ResponseDirectory.cpp:65-71 | stat succeeds exactly on an existing path and gives its size and formatted mtime |
| `ConfigParser.GetIndentation` | WebservConfig.cpp:51-63 | the loop's count equals Indentation: 1 per leading space, 4 per leading tab, up to the first other char |
| `ConfigParser.IndentationOfBlanks` | WebservConfig.cpp:51-63 | a run of blanks followed by a non-blank counts its spaces plus 4 times its tabs |
| `ConfigParser.Octet` | WebservConfig.cpp:72-75 | an accepted octet is at most 255 |
| `ConfigParser.OctetMeaning` | WebservConfig.cpp:72-75 | a piece is accepted exactly when std::stoi converts it to 0..255 (a negative value cast to uint32_t exceeds 255), and its value is that of std::stoi |
| `ConfigParser.Shifted` | WebservConfig.cpp:76 | an octet shifted into place fits in 32 bits |
| `ConfigParser.IpFold` | WebservConfig.cpp:71-79 | a fold that succeeds counts every piece and its result fits 32 bits |
| `ConfigParser.IpFoldStep` | WebservConfig.cpp:71-79 | one more octet ORs in its value shifted by 24 - 8*count and counts one more |
| `ConfigParser.IpFoldDefined` | WebservConfig.cpp:71-75 | the fold succeeds exactly when every piece is an octet |
| `ConfigParser.IpValue` | WebservConfig.cpp:65-84 | an accepted address has only octet pieces, has 4 of them or folds to 0, and fits 32 bits |
| `ConfigParser.IpStringToDecimal` | WebservConfig.cpp:65-84 | the method, with its getline loop, computes IpValue |
| `ConfigParser.FoldOctets` | WebservConfig.cpp:67-79 | the loop computes the fold of the '.'-pieces of the address |
| `ConfigParser.IpOfQuad` | WebservConfig.cpp:65-84 | "a.b.c.d" with a, b, c, d <= 255 converts to a*2^24 + b*2^16 + c*2^8 + d |
| `ConfigParser.QuadTokens` | WebservConfig.cpp:71 | the '.'-pieces of a dotted quad are its four decimals |
| `ConfigParser.IpQuadFold` | WebservConfig.cpp:71-79 | folding four octets gives the dotted-quad value with count 4 |
| `ConfigParser.OctetOfDecimal` | WebservConfig.cpp:72 | the decimal text of n <= 255 is the octet n |
| `ConfigParser.IpRejectsLargeOctet` | WebservConfig.cpp:72-75 | a piece std::stoi converts to a value over 255 rejects the address |
| `ConfigParser.PortText` | WebservConfig.cpp:89 | the port text is the suffix of the line after its last ':' |
| `ConfigParser.ListenEntry` | WebservConfig.cpp:86-99 | a listen line is accepted exactly when std::stol converts the port text to 1..65535 and, when the line has two different colons, the address converts. Then the entry has that port and the address's value, or 0 without an address |
| `ConfigParser.ParseListenGroup` | WebservConfig.cpp:86-108 | returns 0 exactly when ListenEntry accepts, and then appends the entry to listen_group; returns 1 and leaves the server unchanged otherwise |
| `ConfigParser.ListenPortOnly` | WebservConfig.cpp:89-99 | "listen: PORT" gives the pair (0, PORT) |
| `ConfigParser.ListenAddressAndPort` | WebservConfig.cpp:89-99 | "listen: a.b.c.d:PORT" gives the pair (dotted-quad value, PORT) |
| `ConfigParser.Words` | WebservConfig.cpp:122-124 | the words operator>> yields are non-empty and free of whitespace |
| `ConfigParser.ScanCodes` | WebservConfig.cpp:134-140 | every code stored lies in 400..599, and a scan not stopped by a bad code ends with the stream in fail |
| `ConfigParser.SetCodes` | WebservConfig.cpp:139 | the codes read are added as keys with the given value; other entries are kept |
| `ConfigParser.ErrorPageLine` | WebservConfig.cpp:131-147 | returns 1 exactly when a code is out of range; the keys grow by the codes read, all in 400..599; on success every entry, old ones too, points to the path read after the codes |
| `ConfigParser.ReadErrorPages` | WebservConfig.cpp:131-147 | the method computes ErrorPageLine |
| `ConfigParser.ReadCodes` | WebservConfig.cpp:134-140 | the loop stops on the first invalid code, and stores each valid code with "" |
| `ConfigParser.PointAll` | WebservConfig.cpp:145-147 | every entry of the map points to the path, with the same keys |
| `ConfigParser.MethodList` | WebservConfig.cpp:194-210 | returns 0 exactly when every word names a method, and then the set is the methods named; UNDEFINED is never added |
| `ConfigParser.ReadMethods` | WebservConfig.cpp:194-210 | the loop computes MethodList from the empty set |
| `ConfigParser.ReadWords` | WebservConfig.cpp:121-124 | the loop collects Words |
| `ConfigParser.ServerLine` | WebservConfig.cpp:110-153 | rc is 0 or 1; a line without ':' fails and changes nothing; locations are untouched; listen_group grows by at most one valid pair; server_names are only appended; error-page keys grow only by codes in 400..599; autoindex stays or becomes 1 |
| `ConfigParser.DefaultsLine` | WebservConfig.cpp:125-151 | the server-level defaults: error-page keys grow only by codes in 400..599, autoindex stays or becomes 1 |
| `ConfigParser.AutoindexHasIndex` | WebservConfig.cpp:125-128 | every line containing "autoindex:" contains "index:", so "autoindex: off" falls into the index branch |
| `ConfigParser.AutoindexOffSetsIndexPage` | WebservConfig.cpp:125-128 | a server line "autoindex: off" sets the server's index page to the word after ':' |
| `ConfigParser.ParseServerData` | WebservConfig.cpp:110-153 | the method computes ServerLine |
| `ConfigParser.LocationLine` | WebservConfig.cpp:155-216 | rc is 0 or 1; a line without ':' fails and changes nothing; the path is kept; error-page keys grow only by codes in 400..599; UNDEFINED never enters allowed_methods; a line with "autoindex:" and no "root:" sets autoindex to 1 when it contains "on", else 0 |
| `ConfigParser.ParseLocation` | WebservConfig.cpp:155-216 | the method computes LocationLine |
| `ConfigParser.LevelName` | WebservConfig.cpp:230-236 | every level's name is a non-empty word |
| `ConfigParser.LevelFromName` | WebservConfig.cpp:230-238 | the levels map is the inverse of LevelName and knows no other name |
| `ConfigParser.TrimBack` | WebservConfig.cpp:227-229 | the result is the string or a shorter prefix ending in a non-blank |
| `ConfigParser.TrimBackOfWord` | WebservConfig.cpp:226-229 | a word operator>> read is not changed by the trim |
| `ConfigParser.LoggingLevel` | WebservConfig.cpp:218-245 | a line without ':' has no level; a level found is the one named by the word after ':' |
| `ConfigParser.ParseLoggingLevel` | WebservConfig.cpp:218-245 | returns 1 exactly when no level is named, and sets the level named otherwise |
| `ConfigParser.LoggingLevelOfName` | WebservConfig.cpp:218-245 | "logging_level: NAME" sets the level NAME names, for every level |
| `ConfigParser.LevelNameRoundTrip` | WebservConfig.cpp:230-238 | looking up a level's name gives the level back |
| `ConfigParser.LoggingLevelOfWord` | WebservConfig.cpp:224-238 | a line whose value is " w" sets the level w names, or none |
| `ConfigParser.Inherit` | WebservConfig.cpp:248-262 | only autoindex, client_max_body_size, index_page and error_pages change; set values are kept; the error-page keys become the union; the location's own pages win |
| `ConfigParser.InheritFillsUnset` | WebservConfig.cpp:249-262 | unset values (autoindex -1, SIZE_MAX, empty index) take the server defaults, and a missing code takes the default page |
| `ConfigParser.InheritIdempotent` | WebservConfig.cpp:247-264 | inheriting twice is inheriting once |
| `ConfigParser.Inherited` | WebservConfig.cpp:247-264 | listen pairs and names are kept, and each location inherits the defaults |
| `ConfigParser.MergeErrorPages` | WebservConfig.cpp:258-262 | the loop gives the defaults overridden by the location's own pages |
| `ConfigParser.CheckParamsPriority` | WebservConfig.cpp:247-264 | the loop over the locations computes Inherited |
| `ConfigParser.InsertByLength` | WebservConfig.cpp:12-15 | inserting keeps the list longest path first and adds exactly the element |
| `ConfigParser.SortByPathLength` | WebservConfig.cpp:9-17 | the result is sorted longest path first and is a permutation of the locations |
| `ConfigParser.SortLocations` | WebservConfig.cpp:9-17 | each server's locations are sorted, and nothing else changes |
| `ConfigParser.StripComment` | WebservConfig.cpp:281-283 | the result is a prefix of the line without '#', and the whole line when it has none |
| `ConfigParser.FlushLocation` | WebservConfig.cpp:290-293 | pushing the pending location changes only the server and the location |
| `ConfigParser.LocationPath` | WebservConfig.cpp:311-317 | the path runs from the '/' at d1 to the ':' at d2, or to the end of the line when d2 < d1 (the size_t difference wraps), and starts with '/' |
| `ConfigParser.Finish` | WebservConfig.cpp:346-357 | rc is 0 or 1, and the logging level is kept |
| `ConfigParser.ConfigSpec` | WebservConfig.cpp:266-271 | rc is 0 or 1; a file that does not open gives 1 and no servers |
| `ConfigParser.ProcessLine` | WebservConfig.cpp:280-345 | one iteration of the read loop computes Step |
| `ConfigParser.ServerLineReached` | WebservConfig.cpp:289-305 | the "server:" branch computes ServerKeyword |
| `ConfigParser.LocationLineReached` | WebservConfig.cpp:306-319 | the "location" branch computes LocationKeyword |
| `ConfigParser.ServerBlockLine` | WebservConfig.cpp:320-327 | the SERVER branch computes ServerBody |
| `ConfigParser.LocationBlockLine` | WebservConfig.cpp:328-344 | the LOCATION branch computes LocationBody |
| `ConfigParser.FinishParse` | WebservConfig.cpp:346-357 | the tail after the loop computes Finish |
| `ConfigParser.ParseConfigFile` | WebservConfig.cpp:266-358 | the whole parse computes ConfigSpec |
| `ConfigParser.RunStep` | WebservConfig.cpp:280-345 | the loop handles one line and then the rest; a failing line stops with rc 1 and the servers pushed so far |
| `ConfigParser.InitialInv` | WebservConfig.cpp:273-278 | the loop's invariant holds of the initial state |
| `ConfigParser.InheritedReady` | WebservConfig.cpp:294-300 | a server pushed with listen pairs, after inheritance, is ready: valid pairs, paths starting with '/', autoindex 0 or 1, codes in 400..599, no UNDEFINED method |
| `ConfigParser.ServerLineOpen` | WebservConfig.cpp:327 | a server line keeps the server block and the defaults valid |
| `ConfigParser.LocationLineOpen` | WebservConfig.cpp:333 | a location line keeps the location valid and its path |
| `ConfigParser.StepInv` | WebservConfig.cpp:280-345 | every line keeps the invariant: valid defaults, location and server block, ready pushed servers, an open location while in LOCATION |
| `ConfigParser.SortKeepsReady` | WebservConfig.cpp:355 | sorting keeps servers ready and makes each location list longest first |
| `ConfigParser.FinishReady` | WebservConfig.cpp:346-357 | every server pushed at the end is ready, and on success their locations are sorted |
| `ConfigParser.RunReady` | WebservConfig.cpp:280-357 | every server a run yields is ready, and sorted on success |
| `ConfigParser.ConfigServersReady` | WebservConfig.cpp:266-358 | every server of the parsed configuration is ready, and its locations are sorted longest first on success |
| `ConfigParser.RunSuccessHasServer` | WebservConfig.cpp:349-354 | a successful parse pushes at least one server |
| `ConfigParser.StepKeepsServers` | WebservConfig.cpp:280-345 | a line never drops a pushed server |
| `ConfigParser.EmptyFileFails` | WebservConfig.cpp:349-352 | an empty file fails with no servers ("Listen group not found") |
| `ConfigParser.CommentLineSkipped` | WebservConfig.cpp:281-284 | a line of blanks and a comment changes nothing |
| `HttpRequest.LastKeyIndex` | src/Request.cpp:101-110 | finds the last query piece with the key, or shows there is none |
| `HttpRequest.MergeLastWins` | src/Request.cpp:99-110 | a key is in params exactly when it was already there or a piece has it. Its value comes from the last such piece (the part after '=' or ""), else it is the old value |
| `HttpRequest.QueryLoop` | src/Request.cpp:101-110 | the getline loop ends with the stream failed, and at eof when the stream began good |
| `HttpRequest.QueryLoopMergesTokens` | src/Request.cpp:99-110 | the loop merges exactly the '&'-pieces of the query into params |
| `HttpRequest.TargetSpec` | src/Request.cpp:90-115 | only path and params change |
| `HttpRequest.TargetAcceptance` | src/Request.cpp:90-98 | a target is accepted exactly when it starts with '/'; one without '?' becomes the path unchanged |
| `HttpRequest.TargetQuery` | src/Request.cpp:94-110 | with '?', the path is the part before the first '?', and params merge the '&'-pieces after it |
| `HttpRequest.TargetParts` | src/Request.cpp:94-110 | the path is target[..q] and params are those of the query loop on target[q+1..] |
| `HttpRequest.RequestLineSpec` | src/Request.cpp:74-88 | only method, path and params change |
| `HttpRequest.RequestLineRoundTrip` | src/Request.cpp:74-88 | "METHOD TARGET HTTP/1.1\r" sets the method and parses TARGET |
| `HttpRequest.RequestLineShape` | src/Request.cpp:74-88 | an accepted line is a defined method's name, a space, a target starting with '/', and " HTTP/1.1\r" |
| `HttpRequest.RequestLineCuts` | src/Request.cpp:75-86 | an accepted line has its first space before its last one, ends in " HTTP/1.1\r", and the target lies between the two |
| `HttpRequest.ScanHeaders` | src/Request.cpp:39-49 | the header loop reads the request's own text |
| `HttpRequest.HeaderLineRoundTrip` | src/Request.cpp:40-47 | "KEY: VALUE\r" splits back into KEY and VALUE when KEY has no ": " |
| `HttpRequest.ContentLengthOf` | src/Request.cpp:53-57 | content_length fits 64 bits |
| `HttpRequest.ContentLengthValues` | src/Request.cpp:53-57 | a missing or unconvertible Content-Length gives 0; a decimal n gives n |
| `HttpRequest.HeaderLineWithoutSeparator` | src/Request.cpp:40-42 | a header line without ": " makes the request INVALID and keeps what was stored before it |
| `HttpRequest.WithContentLengthEntry` | src/Request.cpp:54 | headers["Content-Length"] inserts the key and keeps every other entry |
| `HttpRequest.ParseNeedsRequestLine` | src/Request.cpp:32-38 | a request that is not INVALID has a first line made of a defined method's name, a space, a target starting with '/', and " HTTP/1.1\r" |
| `HttpRequest.BodySpec` | src/Request.cpp:64-72 | FULL_BODY with body = raw when the sizes match, FULL_HEADER when raw is short, INVALID when it is long |
| `HttpRequest.ParseSpec` | src/Request.cpp:32-62 | the stored status is not touched by the parse |
| `HttpRequest.HeaderStage` | src/Request.cpp:39-62 | the header stage keeps the stored status |
| `HttpRequest.BodyStage` | src/Request.cpp:50-62 | the body stage keeps the stored status |
| `HttpRequest.ScanHeaderEnd` | src/Request.cpp:39 | a "\r\n" line ends the header loop |
| `HttpRequest.ScanHeaderStep` | src/Request.cpp:39-48 | a "KEY: VALUE\r\n" line stores headers[KEY] = VALUE and moves past the line |
| `HttpRequest.ScanHeaderLines` | src/Request.cpp:39-49 | a block of header lines and "\r\n" stores every field, later ones winning, and stops at the body |
| `HttpRequest.BodyStageOnText` | src/Request.cpp:50-61 | the rest after the headers becomes raw; a NUL in it makes the read fail (INVALID); otherwise its length against Content-Length decides the status |
| `HttpRequest.WireRequestLine` | src/Request.cpp:33-38 | the first line of a wire request is its request line, and the header stage starts right after it |
| `HttpRequest.HeaderStageOnBlock` | src/Request.cpp:39-49 | the header stage on a header block passes the stored fields on to the body stage at the body |
| `HttpRequest.WireRequestReachesBody` | src/Request.cpp:32-49 | parsing a wire request reaches the body stage with its target parsed and its fields stored |
| `HttpRequest.ParseWireRequest` | src/Request.cpp:32-72 | method, path, params, headers, raw and content_length of a parsed wire request are those it was built from; the status follows from the body |
| `HttpRequest.ParseCompleteRequest` | src/Request.cpp:32-72 | a request with an exact Content-Length and no NUL parses to FULL_BODY with that body |
| `HttpRequest.Request.constructor` | src/Request.cpp:9-12 | method UNDEFINED, status NEW, empty fields, content_length 0 (see "Left out") |
| `HttpRequest.Request.GetRequestBody` | src/Request.cpp:64-72 | computes BodySpec: FULL_BODY exactly when raw has content_length chars, and then body = raw; FULL_HEADER exactly when it has fewer |
| `HttpRequest.Request.ParseTarget` | src/Request.cpp:90-115 | computes TargetSpec on the object's fields |
| `HttpRequest.Request.ParseRequestLine` | src/Request.cpp:74-88 | computes RequestLineSpec on the object's fields |
| `HttpRequest.Request.ParseRequest` | src/Request.cpp:32-62 | computes ParseSpec on the object's fields |
| `HttpRequest.Request.ReadBody` | src/Request.cpp:50-61 | computes BodyStage on the object's fields |
| `OneShotParser.OneShotSpec` | requestParser.cpp:27-54 | rc is 0 or 1; raw, status and content_length are never written |
| `OneShotParser.RequestLineOnly` | requestParser.cpp:27-35 | a request that is just a request line stops after it (eof) with the line's result |
| `OneShotParser.OneShotBodyOnText` | requestParser.cpp:47-53 | the body read to '\0' reaches eof exactly when the rest has no NUL, and is the whole rest then |
| `OneShotParser.OneShotReachesBody` | requestParser.cpp:27-46 | a wire request's request line and header block parse to its method, target and fields, and stop at the body |
| `OneShotParser.OneShotWireRequest` | requestParser.cpp:27-98 | the fields of a parsed wire request are those it was built from; rc is 0 exactly when the body has no NUL, and then the body is stored |
| `OneShotParser.ParseRequest` | requestParser.cpp:27-54 | computes OneShotSpec on the request object |
| `ResponseUtils.BuildPath` | ResponseUtils.cpp:3-9 | joins with exactly one '/' added, unless first ends in '/', second is empty or starts with '/' |
| `ResponseUtils.FileExtension` | ResponseUtils.cpp:11-17 | the suffix after the last '.', or "" without a '.' |
| `ResponseUtils.FileExtensionOfName` | ResponseUtils.cpp:11-17 | the extension of "stem.ext" is ext |
| `ResponseUtils.StringToInt` | ResponseUtils.cpp:19-26 | std::stoi's value, -1 for invalid_argument, and no result where std::stoi's out_of_range escapes |
| `ResponseUtils.StringToIntOfDecimal` | ResponseUtils.cpp:19-26 | the decimal text of n <= INT_MAX gives n |
| `ResponseUtils.StringToIntShort` | Response.cpp:221-222 | four chars never overflow: the result exists and lies in -9999..9999 |
| `ResponseUtils.StatusText` | Response.cpp:141-145 | the table's status line for a known code, the decimal code otherwise; no line break inside |
| `ResponseUtils.StatusLinePlain` | Response.cpp:4-20 | no status line of the table contains a line break |
| `ResponseUtils.ContentType` | Response.cpp:146-151 | the MIME type for a known extension, "text/plain" otherwise |
| `ResponseUtils.HtmlHeader` | Response.cpp:139-155 | the header starts with "HTTP/1.1 " and ends with the blank line |
| `ResponseUtils.HeaderFieldsPlain` | Response.cpp:152-153 | both header fields are lines a parser splits back |
| `ResponseUtils.HtmlHeaderLayout` | Response.cpp:139-155 | the header is the status line, Content-Type, Content-Length and "\r\n" |
| `ResponseUtils.HtmlHeaderFirstLine` | Response.cpp:139-145 | the first line of a response is its status line |
| `ResponseUtils.HtmlHeaderReadsBack` | Response.cpp:139-155 | parsing a response back gives its two fields and a Content-Length equal to the length of the body that follows |
| `ResponseDirectory.EntryStats` | ResponseDirectory.cpp:65-77 | size and mtime of a path, or "Unknown" twice when stat fails |
| `ResponseDirectory.EntryLine` | ResponseDirectory.cpp:43-63 | the row is empty exactly for "." |
| `ResponseDirectory.EntryLineCases` | ResponseDirectory.cpp:43-63 | ".." shows "../" with no stats; a directory shows "name/", its mtime and "-"; a file shows its mtime and size; a failed stat shows "Unknown" |
| `ResponseDirectory.RowsStep` | ResponseDirectory.cpp:33-36 | the listing is the rows of the entries in readdir order |
| `ResponseDirectory.ModTime` | Response.cpp:205-214 | the formatted mtime, or "Unknown" when stat fails |
| `ResponseDirectory.CarriedStep` | Response.cpp:179-197 | "." is skipped; ".." shows the size and mtime carried from the previous row; a directory shows "-" and its mtime; a file shows its mtime and size |
| `ResponseDirectory.CarriedRowsStep` | Response.cpp:179-198 | the rows of this revision are built entry by entry, carrying size and mtime |
| `ResponseDirectory.DotDotRepeatsPreviousRow` | Response.cpp:183-197 | after a file row, ".." repeats that file's size and mtime |
| `ResponseDirectory.DotDotShowsNoStats` | ResponseDirectory.cpp:50-61 | in this revision ".." has empty size and mtime |
| `ResponseDirectory.ListingHeaderIsHtmlHeader` | ResponseDirectory.cpp:39-40 | the listing's literal header is the one _getHtmlHeader builds for 200 and "html" |
| `HttpResponse.ErrorPagePath` | Response.cpp:107-116 | a page is chosen exactly when its code is configured and the page is readable and not a directory |
| `HttpResponse.ErrorPageChoice` | Response.cpp:92-105 | the tiers in order: the location's page, the global page, the page of code 0; whatever is chosen opens |
| `HttpResponse.PageResponseReadsBack` | Response.cpp:118-155 | a saved page is its header and content, and its Content-Length reads back as the content's length |
| `HttpResponse.ListingResponseReadsBack` | Response.cpp:200-202 | a listing's Content-Length reads back as the length of the HTML that follows |
| `HttpResponse.IndexTarget` | Response.cpp:55-60 | the index is substituted only for the location's own path, as "/" + index_page |
| `HttpResponse.IndexRecursionRepeats` | Response.cpp:55-60 | the as-written recursion: for path "/a" with index "a", the substituted path is the path again |
| `HttpResponse.ServeSpec` | Response.cpp:61-89 | rc is 0 (CGI) or 1 (answered) |
| `HttpResponse.PrepareCgiHandoff` | Response.cpp:52-78 | prepareResponse hands over to CGI (0) only for an executable ".py" that is not a directory, leaving the response untouched |
| `HttpResponse.ServeCgiHandoff` | Response.cpp:69-78 | the same for a path once the index step is past |
| `HttpResponse.PrepareServesIndex` | Response.cpp:55-60 | an existing index is served for the location's path, with 200, or the original code when it would recurse |
| `HttpResponse.ServeStaticFile` | Response.cpp:79-89 | a readable non-".py" file is answered with its header and full content |
| `HttpResponse.MissingFile404` | Response.cpp:79-84 | a path that is not a listed directory, not ".py" and does not open gets the 404 error response |
| `HttpResponse.PyNotExecutable404` | Response.cpp:70-77 | a ".py" path that is not executable gets the 404 error response and is not handed to CGI |
| `HttpResponse.ServeDirectory` | Response.cpp:61-68 | a directory with a trailing '/' is listed with autoindex and gets a 403 without; one without the '/' gets a 404 |
| `HttpResponse.CgiStatusRewrite` | Response.cpp:216-231 | "Status: NNN rest" with 100 <= NNN <= 599 and no page for NNN becomes "HTTP/1.1 NNN rest" |
| `HttpResponse.CgiStatusKept` | Response.cpp:221-230 | the rewrite puts "HTTP/1.1" in place of the 7 chars "Status:" and keeps the rest of the output |
| `HttpResponse.CgiStatusAnswered` | Response.cpp:221-227 | a status over 599 is answered with the 500 error response, a status with a configured page with that code's error response |
| `HttpResponse.CgiStatusRejected` | Response.cpp:221-224 | after "Status: ", four characters that read as a code below 100 or above 599, or do not end in ' ', give the 500 error response |
| `HttpResponse.CgiStatusWithoutReason` | Response.cpp:221-224 | "Status: 200\r\n" reads the status characters "200\r", so the script's 200 becomes the 500 error response |
| `HttpResponse.CgiStatusTwoDigits` | Response.cpp:221-224 | "Status: 42 x" reads 42, below 100, and gets the 500 error response |
| `HttpResponse.CgiWithoutStatus` | Response.cpp:217-219 | output without "Status: " gets "HTTP/1.1 200 OK\r\n" in front |
| `HttpResponse.Response.constructor` | Response.cpp:36-38 | empty response, no location |
| `HttpResponse.Response.SaveResponsePage` | Response.cpp:118-129 | 1 and nothing changed when the page does not open; otherwise 0 and the page with its header |
| `HttpResponse.Response.PrepareResponseError` | Response.cpp:92-105 | the response becomes the error response the tiers choose |
| `HttpResponse.Response.GenerateDirectoryListAt` | Response.cpp:166-203 | the response becomes the listing of this revision, or a 403 when opendir fails |
| `HttpResponse.Response.GenerateDirectoryList` | ResponseDirectory.cpp:24-41 | the response becomes the listing of local_path, or a 403 when opendir fails |
| `HttpResponse.Response.CheckIfDirectory` | ResponseDirectory.cpp:3-14 | true exactly for a directory with a trailing '/'; then a listing with autoindex, else 403; otherwise nothing changes |
| `HttpResponse.Response.PrepareResponse` | Response.cpp:52-90 | computes PrepareSpec, where the index substitution cannot repeat |
| `HttpResponse.Response.ServePath` | Response.cpp:61-89 | computes ServeSpec |
| `HttpResponse.Response.HandleCgiResponse` | Response.cpp:216-231 | computes CgiSpec on the response |
| `Events.Classify` | WebservEvents.cpp:3-29 | server sockets accept; pipes write on EPOLLOUT and read on EPOLLIN or EPOLLHUP; unknown fds are ignored; clients read on EPOLLIN and write on EPOLLOUT otherwise — each exactly when its condition holds |
| `Events.HostName` | Webserv.cpp:133-134 | the Host header up to its first ':' |
| `Events.FirstNamed` | Webserv.cpp:136-143 | the first server carrying the name, or none |
| `Events.TargetServer` | Webserv.cpp:131-145 | a server bound to the socket that carries the host name, the first such; the first bound server when none does |
| `Events.MatchFrom` | WebservEvents.cpp:91-99 | the first location whose path is a prefix of the request path |
| `Events.RoutedPath` | WebservEvents.cpp:94-95 | the prefix is erased and a '/' put in front when missing |
| `Events.FirstMatchIsLongest` | WebservEvents.cpp:88-99 | on sorted locations the first match is a longest matching path |
| `Events.PrefixMatchCrossesSegments` | WebservEvents.cpp:92-95 | "/api" matches "/apiv2/x", which routes to "/v2/x" |
| `Events.RedirectResponse` | WebservEvents.cpp:123-129 | starts with the status code and ends with the Location line and an empty body |
| `Events.Validate` | WebservEvents.cpp:108-134 | 405 exactly when the method is not allowed, 413 exactly when it is but the body is too large, the redirect exactly when both pass and a redirect is set, else pass |
| `Events.RedirectLayout` | WebservEvents.cpp:123-129 | the redirect is the status line, the Location line and Content-Length 0 |
| `Events.Redirect301` | WebservEvents.cpp:124-125 | 301 carries "Moved Permanently" |
| `Events.Redirect302` | WebservEvents.cpp:126-127 | 302 carries "Found" |
| `Events.RedirectOtherCode` | WebservEvents.cpp:123-129 | any other code runs on into "Location:" without a reason or line end |
| `Events.ChunkLen` | WebservEvents.cpp:139-146 | the chunk is the chunk size or what is left, whichever is smaller |
| `Events.SendOffsetBounded` | WebservEvents.cpp:150-157 | a send that advances keeps the offset strictly inside the response; one that sends the rest finishes |
| `Events.WriteOffsetBounded` | WebservEvents.cpp:165-180 | a write keeps the offset within the body and advances it by what was written; a write with nothing left is done |
| `Cgi.EnvName` | WebservCgi.cpp:140-146 | each char of the key upper-cased, '-' turned into '_' |
| `Cgi.VarName` | WebservCgi.cpp:140-146 | the loop computes EnvName |
| `Cgi.QueryString` | WebservCgi.cpp:118-125 | empty exactly without params, and ending in '&' otherwise |
| `Cgi.Pairs` | WebservCgi.cpp:118 | the params in their iteration order |
| `Cgi.EnvFixedVariables` | WebservCgi.cpp:115-131 | PATH_INFO is the path, SERVER_PROTOCOL "HTTP/1.1", GATEWAY_INTERFACE "CGI/1.1", REQUEST_METHOD the method's name |
| `Cgi.EnvKeys` | WebservCgi.cpp:114-131 | the variables are the headers plus the four fixed names, plus QUERY_STRING when there are params; other headers keep their values |
| `Cgi.EnvQuery` | WebservCgi.cpp:118-125 | with params, QUERY_STRING ends with every "k=v&" in order, and is exactly that without a QUERY_STRING header |
| `Cgi.BaseEnvQuery` | WebservCgi.cpp:114-117 | before the loop, QUERY_STRING is present only as a header |
| `Cgi.WithQueryValue` | WebservCgi.cpp:118-125 | the loop appends the pairs to whatever QUERY_STRING held |
| `Cgi.WithQueryStep` | WebservCgi.cpp:119-124 | each pass appends "k=v&" |
| `Cgi.HeaderVariableUnprefixed` | WebservCgi.cpp:138-148 | a header becomes a variable without an "HTTP_" prefix: User-Agent becomes USER_AGENT |
| `Cgi.BuildEnvMap` | WebservCgi.cpp:114-131 | the loop builds EnvMap |
| `Cgi.EnvEntries` | WebservCgi.cpp:134-152 | one "NAME=value" per variable, in iteration order |
| `Cgi.CreateEnvp` | WebservCgi.cpp:112-153 | envp has one entry per variable of EnvMap, each "NAME=value" |
| `Cgi.ClosePipe` | WebservCgi.cpp:155-172 | closing fd_out zeroes it alone; closing any other pipe zeroes fd_in, closes a set fd_out too, kills the pid and zeroes it |
| `Cgi.ClosePipeTeardown` | WebservCgi.cpp:155-172 | closing fd_in tears down the whole link and kills the child; closing fd_out kills nothing |
| `Server.LocateSpec` | WebservEvents.cpp:87-105 | a found location leaves the tables alone and stores the location |
| `Server.CheckSpec` | WebservEvents.cpp:108-134 | a request that passes changes nothing |
| `Server.Parsed` | WebservEvents.cpp:67-69 | after the parse the headers hold "Host" (operator[] inserts it) |
| `Server.HeaderSpec` | WebservEvents.cpp:67-73 | a request that goes on keeps the client's objects |
| `Server.RouteSpec` | WebservEvents.cpp:70-73 | a request that goes on keeps the client's objects |
| `Server.RequestSpec` | WebservEvents.cpp:56-85 | a request that goes on keeps the client's objects |
| `Server.Webserv.constructor` | Webserv.cpp:5-13 | running, no epoll fd, 16 events, 4096-byte chunks, 5-second timeout, empty tables |
| `Server.Webserv.CloseFd` | WebservCgi.cpp:71-72 | the fd is closed and its epoll registration dropped |
| `Server.Webserv.CloseClientFd` | WebservUtils.cpp:12-20 | the client is unregistered, closed and erased |
| `Server.Webserv.ModifyEpollSocketOut` | WebservUtils.cpp:22-29 | a registered client is switched to EPOLLOUT; on an unregistered fd EPOLL_CTL_MOD fails and the client is closed |
| `Server.Webserv.StoreCgi` | WebservCgi.cpp:162-170 | the CgiData written through the reference lands in the client's entry, if the client is still there |
| `Server.Webserv.CloseCgiPipe` | WebservCgi.cpp:155-172 | computes PipeClosing: the pipe is closed and erased, and ClosePipe's effects apply |
| `Server.Webserv.HandleConnection` | WebservEvents.cpp:31-54 | a failed accept changes nothing; a failed fcntl or epoll_ctl closes the client; otherwise the client is registered for EPOLLIN with last_activity and server_fd set, fresh objects for a new entry |
| `Server.Webserv.GetTargetServer` | Webserv.cpp:131-145 | the client's server becomes TargetServer of its socket's servers and the host |
| `Server.Webserv.GetTargetLocation` | WebservEvents.cpp:87-105 | computes LocateSpec |
| `Server.Webserv.CheckRequestValid` | WebservEvents.cpp:108-134 | computes CheckSpec: 405, then 413, then the redirect |
| `Server.Webserv.ReadHeaders` | WebservEvents.cpp:67-73 | computes HeaderSpec |
| `Server.Webserv.ParseHeaders` | WebservEvents.cpp:67-69 | computes Parsed |
| `Server.Webserv.RouteRequest` | WebservEvents.cpp:70-73 | computes RouteSpec |
| `Server.Webserv.GetClientRequest` | WebservEvents.cpp:56-85 | computes RequestSpec for what recv returned |
| `Server.Webserv.SendClientResponse` | WebservEvents.cpp:136-158 | computes SendSpec for what send returned |
| `Server.Webserv.SendCgiRequest` | WebservEvents.cpp:160-182 | computes CgiWriteSpec for a client in the table; the orphan branch closes the pipe |
| `Server.Webserv.GetCgiResponse` | WebservEvents.cpp:184-205 | computes CgiReadSpec for a client in the table; the orphan branch closes the pipe |
| `Server.Webserv.ConnectCgi` | WebservCgi.cpp:77-109 | computes ConnectSpec for the epoll_ctl outcomes |
| `Server.Webserv.LinkBody` | WebservCgi.cpp:84-95 | the body pipe is mapped to the client and registered for EPOLLOUT |
| `Server.Webserv.AbandonLink` | WebservCgi.cpp:88-93 | a failed body registration: 500, EPOLLOUT, fd_in closed, the body pipe torn down |
| `Server.Webserv.ConnectInput` | WebservCgi.cpp:99-108 | computes InputStage: fd_in registered for EPOLLIN or EPOLLHUP, or a 500 and teardown |
| `Server.Webserv.CloseIfOpen` | WebservCgi.cpp:30-41 | a non-zero fd is closed |
| `Server.Webserv.EndCgi` | WebservCgi.cpp:29-44 | computes EndSpec: the set fds are closed, a 500 is prepared, 1 |
| `Server.Webserv.ExecuteCgi` | WebservCgi.cpp:46-75 | computes LaunchSpec for the pipe and fork outcomes |
| `Server.Webserv.AnswerRequest` | WebservEvents.cpp:17-25 | computes AnswerSpec |
| `Server.Webserv.HandleClientRead` | WebservEvents.cpp:14-25 | computes ClientReadSpec |
| `Server.Webserv.TimeoutCgi` | Webserv.cpp:120-126 | last_activity refreshed, 500, EPOLLOUT, fd_in torn down |
| `Server.Webserv.CloseIdle` | Webserv.cpp:112-128 | the loop closes idle clients without CGI, and stops at the first idle client with CGI, leaving the rest of the sweep unchanged |
| `Server.Webserv.CheckTimeouts` | Webserv.cpp:110-129 | computes Sweep; only the client it stops at gets the 500; no other response changes |
| `Server.InvalidRequestReachesPrepare` | WebservEvents.cpp:67-84 | as written, a fresh client sending "\r\n\r\n" gets 0 with an INVALID request and no location |
| `Server.EmptyLineParsesInvalid` | src/Request.cpp:32-38 | an empty first line is INVALID |
| `Server.UnroutedRequestIsInvalid` | WebservEvents.cpp:56-85 | a request answered (0) without a location was INVALID; one that reads on (2) is still reading |
| `Server.RequestOutcome` | WebservEvents.cpp:56-85 | 1 exactly when recv gives nothing; 0 only for FULL_BODY or INVALID, 2 only for NEW or FULL_HEADER; a NEW request without "\r\n\r\n" in its buffer only has the bytes appended and last_activity refreshed, and gets 2 |
| `Server.HeaderExits` | WebservEvents.cpp:67-84 | the header stage never gives 1; its 0 and 2 carry the status the final test saw |
| `Server.RouteExits` | WebservEvents.cpp:70-84 | routing gives 4, 3 or the final test's 0 or 2, never 1 |
| `Server.UnroutedRequestAnswered` | WebservEvents.cpp:14-25 | the corrected read event: a request answered (0) without a location is INVALID, gets the 400 error response, and its client is switched to EPOLLOUT; prepareResponse is not reached |
| `Server.HeaderOutcome` | WebservEvents.cpp:67-84 | the header stage answers without a location only for INVALID, and reads on only for NEW or FULL_HEADER |
| `Server.RouteLocated` | WebservEvents.cpp:87-99 | a routed request holds a location and keeps its status |
| `Server.RouteOutcome` | WebservEvents.cpp:87-134 | a routed request holds a location of its server that prefixes the path, its path is routed, and it passes Validate; 4 exactly when no location matches |
| `Server.SendProgress` | WebservEvents.cpp:136-158 | a send closes the client exactly when nothing is left, it fails, or it sends the rest; otherwise the offset grows by what was sent and stays inside the response |
| `Server.OrphanPipeSignalsGroup` | WebservEvents.cpp:160-166 | as written, an event on a pipe whose client is gone kills pid 0 |
| `Server.OrphanSignalsNobody` | WebservEvents.cpp:160-166 | the orphan branch kills nothing, keeps the clients and only closes the pipe |
| `Server.SweepHit` | Webserv.cpp:110-129 | the sweep stops only at an idle client with a CGI child, and the only kill is that child |
| `Server.SweepWithoutHit` | Webserv.cpp:112-128 | a sweep without a stop closes exactly the idle clients and keeps the others and the pipes |
| `Server.SweepKeepsBusy` | Webserv.cpp:116 | a client that is not idle survives the sweep unchanged |
| `Server.ClosePipeKeepsClients` | Webserv.cpp:120-125 | a CGI timeout touches no other client |
| `Server.CloseIfSetLogs` | WebservCgi.cpp:30-41 | only a non-zero fd is closed |
| `Server.EndClosesSetFds` | WebservCgi.cpp:29-44 | _endCgi closes exactly the non-zero fds given, in order, and nothing else changes |
| `Server.LaunchLinks` | WebservCgi.cpp:46-108 | a POST or DELETE launch whose calls all succeed links both pipes to the client with the child's pid, closes the child's ends and kills nothing |

## Left out

- The main loop (`_mainLoop`), `startServer`, `_stopServer`, signals and `_initWebserv` (socket, bind, listen): these are the process setup around the handlers, not part of this model.
- `_handleEvent` itself: its dispatch is `Events.Classify`, and each branch is the handler method it names.
- The child side of `fork` in `_executeCgi`: `dup2`, `computeCmd` (the argv "python3", script path), `execve`, `free_array` and `exit`. `Server.Webserv.ExecuteCgi` takes what `pipe` and `fork` returned as a `Launch` parameter.
- recv, send, read, write, accept, epoll_ctl, fcntl and the clock: parameters; a handler receives their results. One `now` is used where the source calls `time` twice in a handler.
- Server.Webserv.ModifyEpollSocketOut: EPOLL_CTL_MOD is taken to fail exactly on an fd that is not registered; other epoll errors are not modelled.
- Logging (`Logger`, `perror`, `_printConfig`, `printRequest`): no effect on the state.
- The iteration orders of `unordered_map` (the params, env_map, _clients_map): parameters given by the caller (`IsEnumeration`, `KeyOrder`).
- ConfigParser.SortByPathLength: std::sort is not stable; the model uses insertion sort, which proves sorted and a permutation but fixes one order among equally long paths.
- ConfigParser.ConfigSpec: `server_indentation` is read before it is set when a "location" line comes before any "server:" line. Its unknown value is the parameter `garbage`.
- ResponseDirectory.CarriedStep: when stat fails on a plain file, `Response.cpp` prints the indeterminate `st_size`. The model prints the parameter `garbage` with std::to_string; it is an `int` because an `off_t` may be negative. Before the first file row, size and mod_time are empty strings, as in the code.
- ConfigParser.Shifted: a fifth octet shifts by a negative count, which is undefined in C++. The model applies the x86 rule of masking the count to 5 bits.
- Cgi.CreateEnvp: failures of `calloc` and `strdup` (NULL) are not modelled.
- Two revisions are mixed in the source. `_prepareResponseError(client, code)` and the `_handleCgiResponse` that is commented out are modelled by `Response.PrepareResponseError` and `Response.HandleCgiResponse`. `prepareResponse(path)` with one argument is modelled with status code 200.
- A write through a `CgiData&` that dangles after `_clients_map` erased the entry is dropped (`Server.Webserv.StoreCgi`).
- HttpRequest.Request.constructor: `src/Request.cpp` sets only method and status; content_length starts at 0 in the model, since `src/Request.hpp` is not part of this model. No result depends on it: parseRequest writes content_length before getRequestBody reads it.
- ResponseUtils.StatusText: the table's lines also end in '\r'; the model states only that they hold no '\n'.
- `src/ResponseConsts.cpp` (a later version of the tables, with 400) is not part of this model; the tables are those of `Response.cpp`.
- `Response::_isDirectory`, `access` and `opendir`: questions put to the `Fs` map.
- The CGI scripts and `main.cpp`: outside the core.

## Findings

| source | as written | input that shows it | evidently intended | confidence | as-written member | corrected member |
|---|---|---|---|---|---|---|
| Response.cpp:55-60 | `prepareResponse` substitutes the index page whenever the path equals the location's path, and calls itself on "/" + index | a location with path "/a", index "a", and an existing root + "/a": each call substitutes "/a" again, without end | the index substitution happens once; a substituted path equal to the location's path is served, not substituted again | not executed | `HttpResponse.IndexRecursionRepeats` | `HttpResponse.PrepareServesIndex` |
| WebservEvents.cpp:17-20, 67-84 | `_getClientRequest` returns 0 for an INVALID parse before any location is looked up, and `_handleEvent` then calls `prepareResponse`, which dereferences the null location | a new connection whose first recv is "\r\n\r\n" | a request rejected before routing never reaches prepareResponse; the model answers it with the 400 error response and switches the client to write | not executed | `Server.InvalidRequestReachesPrepare` | `Server.UnroutedRequestAnswered` |
| WebservEvents.cpp:160-166, 184-195; WebservCgi.cpp:162-170 | `_sendCgiRequest` and `_getCgiResponse` look up the pipe's client with `operator[]`. For a client that was erased, this creates an entry with pid 0; closing the pipe then calls `kill(0, SIGKILL)`, which signals the server's own process group | a peer that closes its connection while its CGI child runs: recv returns 0, the client is erased, and the next pipe event arrives | a pipe whose client is gone is closed and forgotten, and no signal is sent | not executed | `Server.OrphanPipeSignalsGroup` | `Server.OrphanSignalsNobody` |

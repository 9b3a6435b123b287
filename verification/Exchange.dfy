/**
  One request/response exchange as a worker runs it, from the popped connection to the decision to
  keep it: the protocol sniffing, the validation chain, routing, the handlers and the keep-alive rule.

  What the outside world contributes (bytes peeked, handshake, request read, file found, write result,
  header texts such as the date) is an `Env`.
 */
module Exchange {
  import opened Text

  datatype Protocol = ProtoUnknown | Http10 | Http11 | Http2

  /** `id` names the accepted socket for the proofs; descriptors are reused, ids are not. */
  datatype Conn = Conn(id: nat, fd: int, isTls: bool, protocol: Protocol, deadline: int)

  datatype Header = Header(key: string, value: string)

  datatype Request = Request(verb: string, uri: string, version: string, headers: seq<Header>)

  datatype Method = GET | HEAD | POST | PUT | DELETE | OPTIONS | TRACE | INVALID

  datatype Ingress =
    | ReadFailed(rc: int)        // read_http_headers: -1, -2, -3 or -4
    | HeadersRead(req: Request)  // what parse_http1 stores

  datatype Env = Env(
    sniffed: Protocol,      // what demux_protocol decides: ProtoUnknown, Http11 or Http2
    handshake: bool,        // TLS handshake finished, now or before
    ingress: Ingress,
    fileFound: bool,
    written: bool,          // send_response returned 0
    serverToken: string, date: string, mime: string, modified: string, length: string)

  datatype Response = Response(status: int, headers: seq<Header>)

  datatype Served = Served(
    conn: Conn,             // the worker's copy afterwards
    demuxed: bool,          // demux_protocol ran
    status: int,            // status of the response sent, 0 if none was sent
    answered: bool,         // a handler built the response
    keep: bool,             // the worker pushes the connection to the wait queue
    asked: seq<Header>,     // headers of the request, as far as it was parsed
    told: seq<Header>)      // headers of the response

  // ---- Request headers

  function FindHeader(headers: seq<Header>, name: string): (r: int)
    ensures -1 <= r < |headers|
    ensures r >= 0 ==> SameIgnoringCase(headers[r].key, name)
    ensures forall i :: 0 <= i < (if r >= 0 then r else |headers|) ==> !SameIgnoringCase(headers[i].key, name)
  {
    if headers == [] then -1
    else if SameIgnoringCase(headers[0].key, name) then 0
    else
      var rest := FindHeader(headers[1..], name);
      if rest < 0 then -1 else rest + 1
  }

  predicate HasHeader(headers: seq<Header>, name: string) {
    FindHeader(headers, name) >= 0
  }

  predicate ClientCloses(headers: seq<Header>) {
    var i := FindHeader(headers, "Connection");
    i >= 0 && headers[i].value == "close"
  }

  predicate AsksForUpgrade(headers: seq<Header>) {
    exists i | 0 <= i < |headers| :: SameIgnoringCase(headers[i].key, "Upgrade") && Contains(headers[i].value, "h2c")
  }

  // ---- Validation

  function Classify(verb: string): Method {
    if verb == "GET" then GET
    else if verb == "HEAD" then HEAD
    else if verb == "PUT" then PUT
    else if verb == "DELETE" then DELETE
    else if verb == "TRACE" then TRACE
    else if verb == "POST" then POST
    else if verb == "OPTIONS" then OPTIONS
    else INVALID
  }

  function ValidStatus(req: Request, protocol: Protocol): int {
    var kind := Classify(req.verb);
    if kind == INVALID then 400
    else if protocol != Http10 && !HasHeader(req.headers, "Host") then 400
    else if Contains(req.uri, "..") then 403
    else if kind !in {GET, HEAD, OPTIONS, PUT} then 405
    else 200
  }

  // ---- Handlers

  function CommonHeaders(x: Env): seq<Header> {
    [Header("Server", x.serverToken), Header("Date", x.date)]
  }

  function FileHeaders(x: Env): seq<Header> {
    [Header("Content-Type", x.mime), Header("Last-Modified", x.modified), Header("Content-Length", x.length),
     Header("Connection", "keep-alive"), Header("Content-Language", "en-CA")]
  }

  function ErrorHeaders(status: int, x: Env): seq<Header> {
    CommonHeaders(x)
    + [Header("Connection", "close"), Header("Content-Type", "text/html")]
    + (if status == 405 then [Header("Allow", "GET, HEAD, OPTIONS")] else [])
    + [Header("Content-Length", x.length)]
  }

  function Respond(kind: Method, status: int, x: Env): Response {
    if status >= 400 then Response(status, ErrorHeaders(status, x))
    else match kind
      case GET | HEAD =>
        if !x.fileFound then Response(404, ErrorHeaders(404, x))
        else Response(status, CommonHeaders(x) + FileHeaders(x))
      case OPTIONS =>
        Response(status, CommonHeaders(x)
             + [Header("Accept-Ranges", "bytes"), Header("Allow", "GET, HEAD, OPTIONS"),
                Header("Content-Length", x.length), Header("Connection", "keep-alive")])
      case _ => Response(status, [])
  }

  predicate SaysClose(h: Header) {
    SameIgnoringCase(h.key, "Connection") && SameIgnoringCase(h.value, "close")
  }

  predicate ServerCloses(headers: seq<Header>) {
    exists i | 0 <= i < |headers| :: SaysClose(headers[i])
  }

  predicate ShouldKeepAlive(request: seq<Header>, response: seq<Header>, protocol: Protocol) {
    !ClientCloses(request) && !ServerCloses(response) && protocol == Http11
  }

  // ---- The exchange

  function FailStatus(rc: int): int {
    match rc
    case -3 => 431
    case -2 => 0
    case -4 => 0
    case -1 => 500
    case _ => 400
  }

  /** The worker's pass from validation on. */
  function Reply(c: Conn, demuxed: bool, req: Request, x: Env, deadline: int): Served {
    var r := Respond(Classify(req.verb), ValidStatus(req, c.protocol), x);
    if x.written && ShouldKeepAlive(req.headers, r.headers, c.protocol)
    then Served(c.(deadline := deadline), demuxed, r.status, true, true, req.headers, r.headers)
    else Served(c, demuxed, r.status, true, false, req.headers, r.headers)
  }

  /** One pass of the worker's loop body for connection `c`; `deadline` is time() + timeout. */
  function Serve(c: Conn, x: Env, deadline: int): Served {
    var demuxed := c.protocol == ProtoUnknown;
    var c := if demuxed then c.(protocol := x.sniffed) else c;
    if c.isTls && !x.handshake then Served(c, demuxed, 0, false, false, [], [])
    else match x.ingress
      case ReadFailed(rc) => Served(c, demuxed, FailStatus(rc), false, false, [], [])
      case HeadersRead(req) =>
        if c.protocol == Http2 then Served(c, demuxed, 505, false, false, [], [])
        else if AsksForUpgrade(req.headers) then Served(c, demuxed, 101, false, false, req.headers, [])
        else
          var c := if SameIgnoringCase(req.version, "HTTP/1.0") then c.(protocol := Http10) else c;
          Reply(c, demuxed, req, x, deadline)
  }

  /** `Connection: close` on either side of the exchange, each read the way the server reads it. */
  predicate SaidClose(r: Served) {
    ClientCloses(r.asked) || ServerCloses(r.told)
  }

  // ---- What the chain guarantees

  /** The order of the checks, read off the status: each of the four statuses means exactly this. */
  lemma ValidStatusIff(req: Request, protocol: Protocol)
    ensures var known := req.verb in {"GET", "HEAD", "POST", "PUT", "DELETE", "OPTIONS", "TRACE"};
            var named := protocol == Http10 || exists h :: h in req.headers && SameIgnoringCase(h.key, "Host");
            var climbs := Contains(req.uri, "..");
            var status := ValidStatus(req, protocol);
            && (status == 400 <==> !known || !named)
            && (status == 403 <==> known && named && climbs)
            && (status == 405 <==> req.verb in {"POST", "DELETE", "TRACE"} && named && !climbs)
            && (status == 200 <==> req.verb in {"GET", "HEAD", "OPTIONS", "PUT"} && named && !climbs)
  {
    var i := FindHeader(req.headers, "Host");
    if i >= 0 {
      assert req.headers[i] in req.headers;
    } else {
      forall h | h in req.headers ensures !SameIgnoringCase(h.key, "Host") {
        var j :| 0 <= j < |req.headers| && req.headers[j] == h;
      }
    }
  }

  lemma ConnectionHeaderNames()
    ensures SaysClose(Header("Connection", "close"))
    ensures forall v :: !SaysClose(Header("Server", v)) && !SaysClose(Header("Date", v))
                     && !SaysClose(Header("Content-Type", v)) && !SaysClose(Header("Last-Modified", v))
                     && !SaysClose(Header("Content-Length", v)) && !SaysClose(Header("Content-Language", v))
                     && !SaysClose(Header("Accept-Ranges", v)) && !SaysClose(Header("Allow", v))
    ensures !SaysClose(Header("Connection", "keep-alive"))
  {
  }

  /** Every response the handlers build says `Connection: close` exactly when it is an error response,
      and it never outgrows the response's 64 header slots. */
  lemma ClosesIffError(kind: Method, status: int, x: Env)
    requires status == 200 || status >= 400
    ensures var r := Respond(kind, status, x);
            && (ServerCloses(r.headers) <==> r.status >= 400)
            && (r.status == 200 || r.status >= 400)
            && |r.headers| <= 8
  {
    ConnectionHeaderNames();
    var r := Respond(kind, status, x);
    if r.status >= 400 {
      assert r.headers[2] == Header("Connection", "close");
    }
  }

  lemma ReplyKeepsIff(c: Conn, demuxed: bool, req: Request, x: Env, deadline: int)
    ensures var s := Reply(c, demuxed, req, x, deadline);
            && (s.keep <==> s.status == 200 && s.conn.protocol == Http11 && x.written && !ClientCloses(req.headers))
            && s.conn == (if s.keep then c.(deadline := deadline) else c)
            && (s.keep ==> !SaidClose(s))
  {
    ClosesIffError(Classify(req.verb), ValidStatus(req, c.protocol), x);
  }

  /** The connection is kept exactly when a complete request got a 200 over HTTP/1.1, the response was
      written and the client's first Connection header is not the literal `close`. */
  lemma KeptIff(c: Conn, x: Env, deadline: int)
    ensures var s := Serve(c, x, deadline);
            s.keep <==>
              && s.status == 200 && s.conn.protocol == Http11 && x.written
              && !ClientCloses(x.ingress.req.headers)
    ensures var s := Serve(c, x, deadline); s.keep ==> s.conn.deadline == deadline && !SaidClose(s)
  {
    if x.ingress.HeadersRead? {
      var req := x.ingress.req;
      var demuxed := c.protocol == ProtoUnknown;
      var c1 := if demuxed then c.(protocol := x.sniffed) else c;
      var c2 := if SameIgnoringCase(req.version, "HTTP/1.0") then c1.(protocol := Http10) else c1;
      ReplyKeepsIff(c2, demuxed, req, x, deadline);
    }
  }
}

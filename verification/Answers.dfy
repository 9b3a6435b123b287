/**
  What a client can expect, told by what it sent and what the server has: the status of every answer, its headers,
  and whether the connection is kept.
 */
module Answers {
  import opened Text
  import opened Exchange

  const KNOWN := {"GET", "HEAD", "POST", "PUT", "DELETE", "OPTIONS", "TRACE"}

  /** The protocol once it has been sniffed, if it was unknown. */
  function Spoken(c: Conn, x: Env): Protocol {
    if c.protocol == ProtoUnknown then x.sniffed else c.protocol
  }

  /** A handshake that has to be done has failed, or is not done. */
  predicate NoTls(c: Conn, x: Env) {
    c.isTls && !x.handshake
  }

  /** Some Upgrade header mentions h2c. */
  ghost predicate Upgrades(req: Request) {
    exists h :: h in req.headers && SameIgnoringCase(h.key, "Upgrade") && Contains(h.value, "h2c")
  }

  /** There is a Host header, or the protocol or the request itself says that none is needed. */
  ghost predicate Named(req: Request, spoken: Protocol) {
    || spoken == Http10 || SameIgnoringCase(req.version, "HTTP/1.0")
    || exists h :: h in req.headers && SameIgnoringCase(h.key, "Host")
  }

  /** The request reaches the handlers. */
  ghost predicate Handled(c: Conn, x: Env) {
    !NoTls(c, x) && x.ingress.HeadersRead? && Spoken(c, x) != Http2 && !Upgrades(x.ingress.req)
  }

  lemma UpgradesIff(req: Request)
    ensures AsksForUpgrade(req.headers) <==> Upgrades(req)
  {
    if i :| 0 <= i < |req.headers| && SameIgnoringCase(req.headers[i].key, "Upgrade")
            && Contains(req.headers[i].value, "h2c")
    {
      assert req.headers[i] in req.headers;
    }
  }

  /** The exchange from the handlers' point of view: the connection's protocol is settled. */
  lemma HandledIsReply(c: Conn, x: Env, deadline: int) returns (settled: Conn)
    requires Handled(c, x)
    ensures var req := x.ingress.req;
            && settled.protocol == (if SameIgnoringCase(req.version, "HTTP/1.0") then Http10 else Spoken(c, x))
            && settled == c.(protocol := settled.protocol)
            && Serve(c, x, deadline) == Reply(settled, c.protocol == ProtoUnknown, req, x, deadline)
  {
    UpgradesIff(x.ingress.req);
    var p := if SameIgnoringCase(x.ingress.req.version, "HTTP/1.0") then Http10 else Spoken(c, x);
    settled := c.(protocol := p);
  }

  /** Without the handlers: a silent or unfinished client gets no answer, a broken reading and what the server
      does not speak get a bare status, and the connection is not kept. */
  lemma UnhandledAnswers(c: Conn, x: Env, deadline: int)
    requires !Handled(c, x)
    ensures var s := Serve(c, x, deadline);
            (s.answered, s.keep, s.told, s.asked, s.status) ==
            (false, false, [], if !NoTls(c, x) && x.ingress.HeadersRead? && Spoken(c, x) != Http2
                               then x.ingress.req.headers else [],
             if NoTls(c, x) then 0
             else match x.ingress
                  case ReadFailed(-3) => 431
                  case ReadFailed(-2) => 0
                  case ReadFailed(-4) => 0
                  case ReadFailed(-1) => 500
                  case ReadFailed(_) => 400
                  case HeadersRead(_) => if Spoken(c, x) == Http2 then 505 else 101)
  {
    if x.ingress.HeadersRead? {
      UpgradesIff(x.ingress.req);
    }
  }

  lemma ReplyStatusIs(c: Conn, demuxed: bool, req: Request, x: Env, deadline: int)
    ensures var s := Reply(c, demuxed, req, x, deadline);
            (s.answered, s.status) ==
            (true,
             if ValidStatus(req, c.protocol) != 200 then ValidStatus(req, c.protocol)
             else if req.verb in {"GET", "HEAD"} && !x.fileFound then 404
             else 200)
  {
    ValidStatusIff(req, c.protocol);
  }

  /** With them: the status is what the request and the file ask for. In particular a validated GET or HEAD is
      answered 404 if and only if the file is not found, and 200 if and only if it is. */
  lemma HandledAnswers(c: Conn, x: Env, deadline: int)
    requires Handled(c, x)
    ensures var s, req := Serve(c, x, deadline), x.ingress.req;
            (s.answered, s.asked, s.status) ==
            (true, req.headers,
             if req.verb !in KNOWN || !Named(req, Spoken(c, x)) then 400
             else if Contains(req.uri, "..") then 403
             else if req.verb in {"POST", "DELETE", "TRACE"} then 405
             else if req.verb in {"GET", "HEAD"} && !x.fileFound then 404
             else 200)
  {
    var settled := HandledIsReply(c, x, deadline);
    ReplyStatusIs(settled, c.protocol == ProtoUnknown, x.ingress.req, x, deadline);
    ValidStatusIff(x.ingress.req, settled.protocol);
  }

  lemma ReplyHeadersAre(c: Conn, demuxed: bool, req: Request, x: Env, deadline: int)
    ensures var s := Reply(c, demuxed, req, x, deadline);
            var first := [Header("Server", x.serverToken), Header("Date", x.date)];
            s.told ==
            if s.status >= 400 then
              first + [Header("Connection", "close"), Header("Content-Type", "text/html")]
              + (if s.status == 405 then [Header("Allow", "GET, HEAD, OPTIONS")] else [])
              + [Header("Content-Length", x.length)]
            else if req.verb == "OPTIONS" then
              first + [Header("Accept-Ranges", "bytes"), Header("Allow", "GET, HEAD, OPTIONS"),
                       Header("Content-Length", x.length), Header("Connection", "keep-alive")]
            else if req.verb == "PUT" then []
            else
              first + [Header("Content-Type", x.mime), Header("Last-Modified", x.modified),
                       Header("Content-Length", x.length), Header("Connection", "keep-alive"),
                       Header("Content-Language", "en-CA")]
  {
    ValidStatusIff(req, c.protocol);
  }

  /** The headers of an answer in order, told by its status and the request's method. */
  lemma HeadersAnswer(c: Conn, x: Env, deadline: int)
    requires Handled(c, x)
    ensures var s, req := Serve(c, x, deadline), x.ingress.req;
            var first := [Header("Server", x.serverToken), Header("Date", x.date)];
            s.told ==
            if s.status >= 400 then
              first + [Header("Connection", "close"), Header("Content-Type", "text/html")]
              + (if s.status == 405 then [Header("Allow", "GET, HEAD, OPTIONS")] else [])
              + [Header("Content-Length", x.length)]
            else if req.verb == "OPTIONS" then
              first + [Header("Accept-Ranges", "bytes"), Header("Allow", "GET, HEAD, OPTIONS"),
                       Header("Content-Length", x.length), Header("Connection", "keep-alive")]
            else if req.verb == "PUT" then []
            else
              first + [Header("Content-Type", x.mime), Header("Last-Modified", x.modified),
                       Header("Content-Length", x.length), Header("Connection", "keep-alive"),
                       Header("Content-Language", "en-CA")]
  {
    var settled := HandledIsReply(c, x, deadline);
    ReplyHeadersAre(settled, c.protocol == ProtoUnknown, x.ingress.req, x, deadline);
  }

  // ---- Keeping the connection

  /** The first Connection header has exactly the value `close`. */
  ghost predicate FirstSaysClose(headers: seq<Header>) {
    exists i :: 0 <= i < |headers| && headers[i].value == "close" && SameIgnoringCase(headers[i].key, "Connection")
             && forall j :: 0 <= j < i ==> !SameIgnoringCase(headers[j].key, "Connection")
  }

  lemma ClientClosesIff(headers: seq<Header>)
    ensures ClientCloses(headers) <==> FirstSaysClose(headers)
  {
    var i := FindHeader(headers, "Connection");
    if j :| 0 <= j < |headers| && headers[j].value == "close" && SameIgnoringCase(headers[j].key, "Connection")
            && forall l :: 0 <= l < j ==> !SameIgnoringCase(headers[l].key, "Connection")
    {
      assert i == j;
    }
  }

  /** An exchange counts as closing when the first Connection header of the request is the literal `close`, or
      some Connection header of the response says so in any case. */
  lemma SaidCloseIff(r: Served)
    ensures SaidClose(r) <==>
              || FirstSaysClose(r.asked)
              || exists h :: h in r.told && SameIgnoringCase(h.key, "Connection") && SameIgnoringCase(h.value, "close")
  {
    ClientClosesIff(r.asked);
    if i :| 0 <= i < |r.told| && SaysClose(r.told[i]) {
      assert r.told[i] in r.told;
    }
    if h :| h in r.told && SaysClose(h) {
      var i :| 0 <= i < |r.told| && r.told[i] == h;
      assert SaysClose(r.told[i]);
    }
  }

  /** What becomes of the connection: it is kept exactly when a complete request got a written 200 over HTTP/1.1
      and its first Connection header is not the literal `close`. A kept one has the new deadline. Identity and
      descriptor stay; the protocol is the one sniffed, or HTTP/1.0 if a handled request says so. */
  lemma ConnectionAfter(c: Conn, x: Env, deadline: int)
    ensures var s := Serve(c, x, deadline);
            && (s.keep <==> s.status == 200 && s.conn.protocol == Http11 && x.written
                            && !FirstSaysClose(x.ingress.req.headers))
            && (s.demuxed <==> c.protocol == ProtoUnknown)
            && s.conn == Conn(c.id, c.fd, c.isTls,
                              if Handled(c, x) && SameIgnoringCase(x.ingress.req.version, "HTTP/1.0") then Http10
                              else Spoken(c, x),
                              if s.keep then deadline else c.deadline)
  {
    if Handled(c, x) {
      var settled := HandledIsReply(c, x, deadline);
      ReplyKeepsIff(settled, c.protocol == ProtoUnknown, x.ingress.req, x, deadline);
      ClientClosesIff(x.ingress.req.headers);
    } else {
      UnhandledAnswers(c, x, deadline);
      if x.ingress.HeadersRead? {
        UpgradesIff(x.ingress.req);
      }
    }
  }
}

/**
  The request context a worker fills in as one exchange goes along, and the code that fills it: header
  lookups, validation, routing, handlers, the keep-alive decision, and the worker's pass over all of them.
 */
module RequestCtx {
  import opened Text
  import opened Exchange
  import opened HeaderTable
  import opened HttpParse
  import opened HttpRead
  import opened HttpRequest
  import opened HttpIngress
  import opened HttpPrint

  datatype Option<T> = Some(value: T) | None

  /** The texts that the handlers insert are C strings that fit a header value. */
  predicate Printable(x: Env) {
    && HeaderTable.Fits(x.serverToken, VALUE_SIZE) && HeaderTable.Fits(x.date, VALUE_SIZE)
    && HeaderTable.Fits(x.mime, VALUE_SIZE) && HeaderTable.Fits(x.modified, VALUE_SIZE)
    && HeaderTable.Fits(x.length, VALUE_SIZE)
  }

  class Context {
    var protocol: Protocol      // of the worker's connection, which the context points to
    var req: Request
    var kind: Exchange.Method
    var status: int
    const response: Table
    const headerBuffer: array<char>

    ghost predicate Valid()
      reads this, response, response.keys, response.values
    {
      response.Valid() && headerBuffer.Length == HEADER_BUFFER_SIZE
    }

    /** A zeroed context for a connection. */
    constructor (protocol: Protocol)
      ensures Valid() && fresh(response) && fresh(response.keys) && fresh(response.values) && fresh(headerBuffer)
      ensures this.protocol == protocol && req == Request("", "", "", []) && status == 0 && response.headers == []
    {
      this.protocol, req, kind, status := protocol, Request("", "", "", []), GET, 0;
      response := new Table();
      headerBuffer := new char[HEADER_BUFFER_SIZE](_ => '\0');
    }

    // ---- Header lookups

    method ConfirmHeaderExists(name: string) returns (found: bool)
      ensures found == HasHeader(req.headers, name)
    {
      for i := 0 to |req.headers|
        invariant forall j :: 0 <= j < i ==> !SameIgnoringCase(req.headers[j].key, name)
      {
        if SameIgnoringCase(req.headers[i].key, name) { return true; }
      }
      return false;
    }

    method GetHeaderValue(name: string) returns (value: Option<string>)
      ensures var i := FindHeader(req.headers, name);
              value == if i >= 0 then Some(req.headers[i].value) else None
    {
      for i := 0 to |req.headers|
        invariant forall j :: 0 <= j < i ==> !SameIgnoringCase(req.headers[j].key, name)
      {
        if SameIgnoringCase(req.headers[i].key, name) { return Some(req.headers[i].value); }
      }
      return None;
    }

    /** The end of parse_http1: 1 for an upgrade to h2c, otherwise 0 and the protocol is settled. */
    method Settle() returns (rc: int)
      modifies this`protocol
      ensures rc == if AsksForUpgrade(req.headers) then 1 else 0
      ensures protocol == if rc == 0 && SameIgnoringCase(req.version, "HTTP/1.0") then Http10 else old(protocol)
    {
      for i := 0 to |req.headers|
        invariant forall j :: 0 <= j < i ==>
          !(SameIgnoringCase(req.headers[j].key, "Upgrade") && Contains(req.headers[j].value, "h2c"))
        invariant protocol == old(protocol)
      {
        if SameIgnoringCase(req.headers[i].key, "Upgrade") {
          if Contains(req.headers[i].value, "h2c") { return 1; }
        }
      }
      if SameIgnoringCase(req.version, "HTTP/1.0") {
        protocol := Http10;
      }
      return 0;
    }

    /** read_http_headers and parse_http1 on their arrays; the request is what the arrays then hold. */
    method ReadRequest(stream: string, script: seq<Event>) returns (rc: int, stored: Request)
      ensures rc == ReadAll(stream, script, 0).rc
      ensures rc == 0 ==> Ingested(stream, script) == HeadersRead(stored)
      ensures rc != 0 ==> Ingested(stream, script) == ReadFailed(rc)
    {
      stored := Request("", "", "", []);
      var reader := new HeaderReader();
      ReadingIsFaithful(stream, script, 0);
      rc := reader.ReadHttpHeaders(stream, script);
      if rc == 0 {
        var block := reader.buffer[..reader.bytesRead];
        BlockIsText(stream);
        ParseYieldsText(block);
        var h1 := new Http1Request();
        h1.ParseHttp1(block);
        stored := h1.Stored(Parse(block));
      }
    }

    /** The status for a failed reading; a silent client gets none. */
    method ReportFailure(code: int)
      requires status == 0
      modifies this`status
      ensures status == FailStatus(code)
    {
      match code
      case -3 => status := 431;
      case -2 =>
      case -4 =>
      case -1 => status := 500;
      case _ => status := 400;
    }

    /** process_ingress: -1 with the status to report, if any, or 0 with the parsed request. */
    method ProcessIngress(stream: string, script: seq<Event>) returns (rc: int)
      requires status == 0 && req.headers == []
      modifies this`protocol, this`req, this`status
      ensures rc == 0 || rc == -1
      ensures var i := Ingested(stream, script);
              && (rc == 0 <==> i.HeadersRead? && old(protocol) != Http2 && !AsksForUpgrade(i.req.headers))
              && (rc == 0 ==>
                    && req == i.req && status == 0
                    && protocol == if SameIgnoringCase(req.version, "HTTP/1.0") then Http10 else old(protocol))
              && (rc != 0 ==>
                    && protocol == old(protocol)
                    && req.headers == (if i.HeadersRead? && old(protocol) != Http2 then i.req.headers else [])
                    && status == if i.ReadFailed? then FailStatus(i.rc)
                                 else if old(protocol) == Http2 then 505 else 101)
    {
      var code, stored := ReadRequest(stream, script);
      if code != 0 {
        ReportFailure(code);
        return -1;
      }
      if protocol == Http2 {
        status := 505;
        return -1;
      }
      req := stored;
      var upgrade := Settle();
      if upgrade == 1 {
        status := 101;
        return -1;
      }
      return 0;
    }

    // ---- Validation

    method ValidateRequest()
      modifies this`kind, this`status
      ensures kind == Classify(req.verb) && status == ValidStatus(req, protocol)
    {
      if req.verb == "GET" {
        kind := GET;
      } else if req.verb == "HEAD" {
        kind := HEAD;
      } else if req.verb == "PUT" {
        kind := PUT;
      } else if req.verb == "DELETE" {
        kind := DELETE;
      } else if req.verb == "TRACE" {
        kind := TRACE;
      } else if req.verb == "POST" {
        kind := POST;
      } else if req.verb == "OPTIONS" {
        kind := OPTIONS;
      } else {
        kind, status := INVALID, 400;
        return;
      }
      if protocol != Http10 {
        var found := ConfirmHeaderExists("Host");
        if !found {
          status := 400;
          return;
        }
      }
      if Contains(req.uri, "..") {
        status := 403;
        return;
      }
      if kind !in {GET, HEAD, OPTIONS, PUT} {
        status := 405;
        return;
      }
      status := 200;
    }

    // ---- Handlers

    method AddCommonHeaders(x: Env)
      requires Valid() && response.count + 2 <= HEADER_SLOTS && Printable(x)
      modifies response, response.keys, response.values
      ensures Valid() && response.headers == old(response.headers) + CommonHeaders(x)
    {
      response.Add("Server", x.serverToken);
      response.Add("Date", x.date);
    }

    method HandleError(x: Env)
      requires Valid() && response.headers == [] && Printable(x)
      modifies response, response.keys, response.values
      ensures Valid() && response.headers == ErrorHeaders(status, x)
    {
      AddCommonHeaders(x);
      response.Add("Connection", "close");
      response.Add("Content-Type", "text/html");
      if status == 405 {
        response.Add("Allow", "GET, HEAD, OPTIONS");
      }
      response.Add("Content-Length", x.length);
    }

    method HandleOptions(x: Env)
      requires Valid() && response.headers == [] && status < 400 && Printable(x)
      modifies response, response.keys, response.values
      ensures Valid() && Response(status, response.headers) == Respond(OPTIONS, status, x)
    {
      AddCommonHeaders(x);
      response.Add("Accept-Ranges", "bytes");
      response.Add("Allow", "GET, HEAD, OPTIONS");
      response.Add("Content-Length", x.length);
      response.Add("Connection", "keep-alive");
    }

    /** The headers about the file. */
    method AddFileHeaders(x: Env)
      requires Valid() && response.count + 5 <= HEADER_SLOTS && Printable(x)
      modifies response, response.keys, response.values
      ensures Valid() && response.headers == old(response.headers) + FileHeaders(x)
    {
      response.Add("Content-Type", x.mime);
      response.Add("Last-Modified", x.modified);
      response.Add("Content-Length", x.length);
      response.Add("Connection", "keep-alive");
      response.Add("Content-Language", "en-CA");
    }

    method HandleGetHead(x: Env)
      requires Valid() && response.headers == [] && status < 400 && Printable(x)
      modifies response, response.keys, response.values, this`status
      ensures Valid()
      ensures Response(status, response.headers) == Respond(GET, old(status), x) == Respond(HEAD, old(status), x)
      ensures status == if x.fileFound then old(status) else 404
      ensures (exists h :: h in response.headers && h.key == "Last-Modified") <==> x.fileFound
    {
      if !x.fileFound {
        status := 404;
        HandleError(x);
        return;
      }
      AddCommonHeaders(x);
      AddFileHeaders(x);
      assert response.headers[3].key == "Last-Modified";
    }

    /** route_request and the handler it picks. */
    method Handle(x: Env)
      requires Valid() && response.headers == [] && Printable(x)
      modifies response, response.keys, response.values, this`status
      ensures Valid() && Response(status, response.headers) == Respond(kind, old(status), x)
    {
      if status >= 400 {
        HandleError(x);
        return;
      }
      match kind
      case GET => HandleGetHead(x);
      case HEAD => HandleGetHead(x);
      case OPTIONS => HandleOptions(x);
      case _ =>
    }

    // ---- Keep-alive

    method ShouldKeep() returns (keep: bool)
      requires Valid()
      ensures keep == ShouldKeepAlive(req.headers, response.headers, protocol)
    {
      var named := ConfirmHeaderExists("Connection");
      if named {
        var value := GetHeaderValue("Connection");
        if value.value == "close" { return false; }
      }
      var closes := response.HasClose();
      return !closes && protocol == Http11;
    }

    // ---- Sending

    /** send_response up to the write: the bytes it hands to the socket, none if they outgrow the buffer. */
    method PrintHeaders(reason: string) returns (sent: string)
      requires Valid() && status >= 0
      modifies headerBuffer
      ensures var block := Block(status, reason, response.headers);
              sent == if |block| < HEADER_BUFFER_SIZE then block else ""
    {
      var headers := response.Stored();
      var built := BuildResponse(headerBuffer, status, reason, headers);
      if built.TooLong? { return ""; }
      return headerBuffer[..built.size];
    }

    /** From validation to the decision to keep the connection. */
    method Finish(c: Conn, demuxed: bool, x: Env, deadline: int, reason: int -> string)
      returns (s: Served, sent: string)
      requires Valid() && response.headers == [] && Printable(x) && c.protocol == protocol
      modifies this`kind, this`status, response, response.keys, response.values, headerBuffer
      ensures s == Reply(c, demuxed, req, x, deadline) && s.status >= 0 && sent == Sent(s, reason)
    {
      ValidateRequest();
      Handle(x);
      ReplyStatus(c, demuxed, req, x, deadline);
      sent := PrintHeaders(reason(status));
      var keep := ShouldKeep();
      var told := response.Stored();
      if x.written && keep {
        s := Served(c.(deadline := deadline), demuxed, status, true, true, req.headers, told);
      } else {
        s := Served(c, demuxed, status, true, false, req.headers, told);
      }
    }
  }

  /** What goes out for an exchange: nothing without a status. */
  function Sent(s: Served, reason: int -> string): string
    requires s.status >= 0
  {
    var block := Block(s.status, reason(s.status), s.told);
    if s.status > 0 && |block| < HEADER_BUFFER_SIZE then block else ""
  }

  /** The client reads the answer off what is sent: the status in digits, the reason cut to 15 bytes and the
      headers of the response; and nothing is sent for an exchange without a status. */
  lemma SentIsRecovered(c: Conn, x: Env, deadline: int, reason: int -> string)
    requires PlainTexts(x)
    requires var text := reason(Serve(c, x, deadline).status); Lacks(text, {'\r', '\n'}) && |text| <= 100
    ensures var s := Serve(c, x, deadline);
            && s.status >= 0
            && var got := Parse(Sent(s, reason));
            && (s.status == 0 ==> Sent(s, reason) == "")
            && (s.status > 0 ==> Spells(got.uri, s.status) && got.verb == "HTTP/1.1")
            && (s.status > 0 ==> (got.version, got.headers) == (Cut(reason(s.status), 15), s.told))
  {
    AnswerIsRecovered(c, x, deadline, reason(Serve(c, x, deadline).status));
  }

  lemma ReplyStatus(c: Conn, demuxed: bool, req: Request, x: Env, deadline: int)
    ensures Reply(c, demuxed, req, x, deadline).status > 0
  {
  }

  /** The worker's pass over one popped connection, up to where it is kept or closed: what the client sends is
      `stream`, and `script` says how it arrives; `sent` are the header bytes of the response. */
  method ServeOnce(c: Conn, x: Env, deadline: int, stream: string, script: seq<Event>, reason: int -> string)
    returns (s: Served, sent: string)
    requires x.ingress == Ingested(stream, script) && Printable(x)
    ensures s == Serve(c, x, deadline) && s.status >= 0 && sent == Sent(s, reason)
  {
    var conn := c;
    var demuxed := conn.protocol == ProtoUnknown;
    if demuxed {
      conn := conn.(protocol := x.sniffed);
    }
    var ctx := new Context(conn.protocol);
    if conn.isTls && !x.handshake {
      return Served(conn, demuxed, 0, false, false, [], []), "";
    }
    var rc := ctx.ProcessIngress(stream, script);
    conn := conn.(protocol := ctx.protocol);
    if rc != 0 {
      s := Served(conn, demuxed, ctx.status, false, false, ctx.req.headers, []);
      sent := "";
      if ctx.status > 0 {
        sent := ctx.PrintHeaders(reason(ctx.status));
      }
      return;
    }
    s, sent := ctx.Finish(conn, demuxed, x, deadline, reason);
  }
}

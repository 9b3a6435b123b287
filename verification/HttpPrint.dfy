/**
  The response's header block, printed piece by piece into a fixed buffer.
 */
module HttpPrint {
  import opened Text
  import opened Exchange
  import opened HttpParse

  const HEADER_BUFFER_SIZE := 8192

  /** A natural number in decimal. */
  function Decimal(n: nat): string {
    if n < 10 then [Digit(n)] else Decimal(n / 10) + [Digit(n % 10)]
  }

  function Digit(d: nat): char
    requires d < 10
  {
    ('0' as int + d) as char
  }

  /** The number that a string of decimal digits denotes. */
  function Value(s: string): int {
    if s == "" then 0 else Value(s[..|s| - 1]) * 10 + (s[|s| - 1] as int - '0' as int)
  }

  predicate AllDigits(s: string) {
    forall i :: 0 <= i < |s| ==> '0' <= s[i] <= '9'
  }

  /** `s` is how one writes `n`: digits only that denote it, and no zero in front of others. */
  ghost predicate Spells(s: string, n: nat) {
    (s != "", AllDigits(s), Value(s), "0" <= s) == (true, true, n, s == "0")
  }

  lemma {:induction false} DecimalSpells(n: nat)
    ensures Spells(Decimal(n), n)
  {
    if n < 10 {
      assert Decimal(n)[..0] == "";
    } else {
      DecimalSpells(n / 10);
      var s := Decimal(n / 10);
      assert Decimal(n)[..|s|] == s;
      assert Value("0") == 0;
    }
  }

  const AS_SENT := Layout(true, 1)

  /** Every header on a line of its own, one space after the colon. */
  function Plainly(n: nat): seq<Layout> {
    seq(n, _ => AS_SENT)
  }

  /** The message whose print the response is: the status line has the shape of a request line. */
  function AsMessage(status: nat, reason: string, headers: seq<Header>): Request {
    Request("HTTP/1.1", Decimal(status), reason, headers)
  }

  function Block(status: nat, reason: string, headers: seq<Header>): string {
    Print(AsMessage(status, reason, headers), AS_SENT, Plainly(|headers|), AS_SENT, "")
  }

  function StatusLine(status: nat, reason: string): string {
    StartLine(AsMessage(status, reason, [])) + "\r\n"
  }

  // ---- The buffer

  /** snprintf(buf + p, remaining, "%s", text): at most `remaining` bytes are touched, the length is returned. */
  method Snprintf(buf: array<char>, p: nat, remaining: nat, text: string) returns (n: nat)
    requires p + remaining <= buf.Length
    modifies buf
    ensures n == |text|
    ensures forall j :: 0 <= j < p || p + remaining <= j < buf.Length ==> buf[j] == old(buf[j])
    ensures remaining > 0 ==> var stored := |Cut(text, remaining - 1)|;
                              buf[p..p + stored] == Cut(text, remaining - 1) && buf[p + stored] == '\0'
  {
    n := |text|;
    if remaining == 0 { return; }
    var stored := if n < remaining then n else remaining - 1;
    var i := 0;
    while i < stored
      invariant 0 <= i <= stored && buf[p..p + i] == text[..i]
      invariant forall j :: 0 <= j < p || p + remaining <= j < buf.Length ==> buf[j] == old(buf[j])
    {
      buf[p + i] := text[i];
      assert buf[p..p + i + 1] == buf[p..p + i] + [text[i]];
      i := i + 1;
    }
    buf[p + stored] := '\0';
    assert buf[p..p + stored] == text[..stored];
  }

  /** `TooLong` stands for a block that outgrows the buffer. */
  datatype Built = Built(size: nat) | TooLong

  /** One print of resp_build_response: the buffer holds `done` before and `done + text` after, if that fits. */
  method Emit(buf: array<char>, p: nat, text: string, ghost done: string) returns (fits: bool)
    requires p == |done| < buf.Length && buf[..p] == done
    modifies buf
    ensures fits <==> p + |text| < buf.Length
    ensures fits ==> buf[..p + |text|] == done + text && buf[p + |text|] == '\0'
  {
    var remaining := buf.Length - p;
    var n := Snprintf(buf, p, remaining, text);
    fits := n < remaining;
    if fits {
      assert buf[..p] == done;
      assert buf[..p + n] == buf[..p] + buf[p..p + n];
    }
  }

  lemma {:induction false} OneMoreLine(hs: seq<Header>, h: Header)
    ensures HeaderLines(hs + [h], Plainly(|hs| + 1)) == HeaderLines(hs, Plainly(|hs|)) + HeaderLine(h, AS_SENT)
  {
    var n := |hs|;
    if hs == [] {
      assert hs + [h] == [h] && [h][1..] == [];
      assert Plainly(1)[1..] == [];
      assert HeaderLine(h, AS_SENT) + "" == "" + HeaderLine(h, AS_SENT);
    } else {
      assert (hs + [h])[1..] == hs[1..] + [h];
      assert Plainly(n + 1)[1..] == Plainly(n) && Plainly(n)[1..] == Plainly(n - 1);
      OneMoreLine(hs[1..], h);
    }
  }

  lemma {:induction false} LinesGrow(hs: seq<Header>, i: nat)
    requires i <= |hs|
    ensures |HeaderLines(hs[..i], Plainly(i))| <= |HeaderLines(hs, Plainly(|hs|))|
    decreases |hs| - i
  {
    if i < |hs| {
      assert hs[..i + 1] == hs[..i] + [hs[i]];
      OneMoreLine(hs[..i], hs[i]);
      LinesGrow(hs, i + 1);
    } else {
      assert hs[..i] == hs;
    }
  }

  lemma BlockIsLines(status: nat, reason: string, headers: seq<Header>)
    ensures Block(status, reason, headers)
            == StatusLine(status, reason) + HeaderLines(headers, Plainly(|headers|)) + "\r\n"
  {
    var lines := HeaderLines(headers, Plainly(|headers|));
    assert "\r\n" + "" == "\r\n";
    StartLineThen(AsMessage(status, reason, []), "\r\n" + (lines + "\r\n"));
    Regroup(StartLine(AsMessage(status, reason, [])), "\r\n", lines + "\r\n");
    Regroup(StatusLine(status, reason), lines, "\r\n");
  }

  /** The loop over the headers, behind what is already in the buffer. */
  method EmitLines(buf: array<char>, p: nat, headers: seq<Header>, ghost first: string) returns (r: Built)
    requires p == |first| < buf.Length && buf[..p] == first
    modifies buf
    ensures var text := first + HeaderLines(headers, Plainly(|headers|));
            && (r.Built? <==> |text| < buf.Length)
            && (r.Built? ==> r.size == |text| && buf[..r.size] == text)
  {
    var total, i := p, 0;
    assert headers[..0] == [] && first + "" == first;
    while i < |headers|
      invariant 0 <= i <= |headers| && total < buf.Length
      invariant total == |first + HeaderLines(headers[..i], Plainly(i))|
      invariant buf[..total] == first + HeaderLines(headers[..i], Plainly(i))
    {
      ghost var lines := HeaderLines(headers[..i], Plainly(i));
      var text := HeaderLine(headers[i], AS_SENT);
      assert headers[..i + 1] == headers[..i] + [headers[i]];
      OneMoreLine(headers[..i], headers[i]);
      LinesGrow(headers, i + 1);
      Regroup(first, lines, text);
      var fits := Emit(buf, total, text, first + lines);
      if !fits { return TooLong; }
      total := total + |text|;
      i := i + 1;
    }
    assert headers[..i] == headers;
    return Built(total);
  }

  /** resp_build_response: the buffer ends up holding exactly the printed block and a zero, or the block does
      not fit, which happens exactly when it is as long as the buffer or longer. */
  method BuildResponse(buf: array<char>, status: nat, reason: string, headers: seq<Header>) returns (r: Built)
    requires buf.Length == HEADER_BUFFER_SIZE
    modifies buf
    ensures var block := Block(status, reason, headers);
            && (r.TooLong? <==> |block| >= HEADER_BUFFER_SIZE)
            && (r.Built? ==> r.size == |block| && buf[..r.size] == block && buf[r.size] == '\0')
  {
    BlockIsLines(status, reason, headers);
    var line := StatusLine(status, reason);
    assert "" + line == line;
    var fits := Emit(buf, 0, line, "");
    if !fits { return TooLong; }
    r := EmitLines(buf, |line|, headers, line);
    if r.TooLong? { return; }
    fits := Emit(buf, r.size, "\r\n", line + HeaderLines(headers, Plainly(|headers|)));
    if !fits { return TooLong; }
    r := Built(r.size + 2);
  }

  // ---- What the block means

  /** The headers as they go out, one line each. */
  function Listed(headers: seq<Header>): string {
    if headers == [] then ""
    else headers[0].key + ": " + headers[0].value + "\r\n" + Listed(headers[1..])
  }

  lemma LineIsListed(h: Header)
    ensures HeaderLine(h, AS_SENT) == h.key + ": " + h.value + "\r\n"
  {
    assert ":" + Spaces(1) == ": ";
    Regroup(h.key, ":", Spaces(1));
  }

  lemma {:induction false} LinesAreListed(hs: seq<Header>)
    ensures HeaderLines(hs, Plainly(|hs|)) == Listed(hs)
  {
    if hs != [] {
      LineIsListed(hs[0]);
      assert Plainly(|hs|)[1..] == Plainly(|hs| - 1);
      LinesAreListed(hs[1..]);
    }
  }

  /** The block, byte for byte. */
  lemma BlockIsSpelled(status: nat, reason: string, headers: seq<Header>)
    ensures Block(status, reason, headers)
            == "HTTP/1.1 " + Decimal(status) + " " + reason + "\r\n" + Listed(headers) + "\r\n"
    ensures Spells(Decimal(status), status)
  {
    BlockIsLines(status, reason, headers);
    LinesAreListed(headers);
    DecimalSpells(status);
    assert StatusLine(status, reason) == "HTTP/1.1 " + Decimal(status) + " " + reason + "\r\n";
  }

  /** The server's own parser recovers status, reason and headers from the block. */
  lemma BlockIsRecovered(status: nat, reason: string, headers: seq<Header>)
    requires Lacks(reason, {'\r', '\n'}) && forall i :: 0 <= i < |headers| ==> PlainHeader(headers[i])
    ensures Parse(Block(status, reason, headers)) == Fitted(AsMessage(status, reason, headers))
    ensures Spells(AsMessage(status, reason, headers).uri, status)
  {
    DecimalSpells(status);
    var message := AsMessage(status, reason, headers);
    assert Lacks(message.verb, {' '});
    ParserUndoesPrinter(message, AS_SENT, Plainly(|headers|), AS_SENT, "");
  }

  // ---- The handlers' responses fit

  lemma {:induction false} LinesAreBounded(hs: seq<Header>, each: nat)
    requires forall i :: 0 <= i < |hs| ==> |hs[i].key| + |hs[i].value| + 4 <= each
    ensures |HeaderLines(hs, Plainly(|hs|))| <= |hs| * each
  {
    if hs != [] {
      assert Plainly(|hs|)[1..] == Plainly(|hs| - 1);
      assert |HeaderLine(hs[0], AS_SENT)| == |hs[0].key| + 1 + |Spaces(1)| + |hs[0].value| + 2;
      assert |Spaces(1)| == 1;
      LinesAreBounded(hs[1..], each);
      assert (|hs| - 1) * each + each == |hs| * each;
    }
  }

  predicate ShortTexts(x: Env) {
    |x.serverToken| <= 900 && |x.date| <= 900 && |x.mime| <= 900 && |x.modified| <= 900 && |x.length| <= 900
  }

  lemma ThreeDigits(n: nat)
    requires n < 1000
    ensures |Decimal(n)| <= 3
  {
    assert n / 10 < 100 && n / 10 / 10 < 10;
    assert |Decimal(n / 10 / 10)| == 1;
    assert |Decimal(n / 10)| <= 2;
  }

  lemma RespondIsShort(kind: Exchange.Method, status: int, x: Env)
    requires ShortTexts(x)
    ensures var r := Respond(kind, status, x);
            && (forall h :: h in r.headers ==> |h.key| + |h.value| + 4 <= 940)
            && (r.status == status || r.status == 404)
  {
  }

  lemma BlockIsShort(r: Response, reason: string)
    requires 0 <= r.status < 1000 && |r.headers| <= 8 && |reason| <= 100
    requires forall h :: h in r.headers ==> |h.key| + |h.value| + 4 <= 940
    ensures |Block(r.status, reason, r.headers)| < HEADER_BUFFER_SIZE
  {
    LinesAreBounded(r.headers, 940);
    BlockIsLines(r.status, reason, r.headers);
    ThreeDigits(r.status);
  }

  /** Whatever the handlers answer, the block fits the buffer, as long as each text they insert has at most
      900 bytes (all that the server has are under 50). */
  lemma HandlersNeverOverrun(kind: Exchange.Method, status: int, x: Env, reason: string)
    requires status == 200 || 400 <= status < 1000
    requires ShortTexts(x) && |reason| <= 100
    ensures var r := Respond(kind, status, x);
            r.status >= 0 && |Block(r.status, reason, r.headers)| < HEADER_BUFFER_SIZE
  {
    ClosesIffError(kind, status, x);
    RespondIsShort(kind, status, x);
    BlockIsShort(Respond(kind, status, x), reason);
  }

  // ---- What a client reads back

  predicate PlainText(t: string) {
    Lacks(t, {'\r', '\n'}) && (t != "" ==> t[0] != ' ')
  }

  /** Short texts that fit on a header line. */
  predicate PlainTexts(x: Env) {
    && ShortTexts(x) && PlainText(x.serverToken) && PlainText(x.date) && PlainText(x.mime) && PlainText(x.modified)
    && PlainText(x.length)
  }

  /** A header that survives printing and parsing unchanged. */
  predicate Survives(h: Header) {
    PlainHeader(h) && |h.key| <= 36 && |h.value| <= 900
  }

  predicate PlainName(key: string) {
    Lacks(key, {':', '\r', '\n'}) && |key| <= 36
  }

  lemma ShortNames()
    ensures PlainName("Server") && PlainName("Date") && PlainName("Allow")
  {
  }

  lemma ContentNames()
    ensures PlainName("Content-Type") && PlainName("Content-Length") && PlainName("Content-Language")
  {
  }

  lemma OtherNames()
    ensures PlainName("Connection") && PlainName("Last-Modified") && PlainName("Accept-Ranges")
  {
  }

  lemma PlainConstants()
    ensures PlainText("close") && PlainText("keep-alive") && PlainText("text/html")
    ensures PlainText("en-CA") && PlainText("GET, HEAD, OPTIONS") && PlainText("bytes")
  {
  }

  lemma NamedSurvives(key: string, text: string)
    requires PlainName(key) && PlainText(text) && |text| <= 900
    ensures Survives(Header(key, text))
  {
  }

  lemma TextsSurvive(x: Env)
    requires PlainTexts(x)
    ensures Survives(Header("Server", x.serverToken)) && Survives(Header("Date", x.date))
    ensures Survives(Header("Content-Type", x.mime)) && Survives(Header("Last-Modified", x.modified))
    ensures Survives(Header("Content-Length", x.length))
  {
    ShortNames();
    ContentNames();
    OtherNames();
    NamedSurvives("Server", x.serverToken);
    NamedSurvives("Date", x.date);
    NamedSurvives("Content-Type", x.mime);
    NamedSurvives("Last-Modified", x.modified);
    NamedSurvives("Content-Length", x.length);
  }

  lemma ConstantsSurvive()
    ensures Survives(Header("Connection", "close")) && Survives(Header("Connection", "keep-alive"))
    ensures Survives(Header("Content-Type", "text/html")) && Survives(Header("Content-Language", "en-CA"))
    ensures Survives(Header("Allow", "GET, HEAD, OPTIONS")) && Survives(Header("Accept-Ranges", "bytes"))
  {
    ShortNames();
    ContentNames();
    OtherNames();
    PlainConstants();
    NamedSurvives("Connection", "close");
    NamedSurvives("Connection", "keep-alive");
    NamedSurvives("Content-Type", "text/html");
    NamedSurvives("Content-Language", "en-CA");
    NamedSurvives("Allow", "GET, HEAD, OPTIONS");
    NamedSurvives("Accept-Ranges", "bytes");
  }

  lemma HeadersSurvive(kind: Exchange.Method, status: int, x: Env)
    requires PlainTexts(x)
    ensures forall h :: h in Respond(kind, status, x).headers ==> Survives(h)
  {
    TextsSurvive(x);
    ConstantsSurvive();
  }

  lemma ReplySurvives(c: Conn, demuxed: bool, req: Request, x: Env, deadline: int)
    requires PlainTexts(x)
    ensures var s := Reply(c, demuxed, req, x, deadline);
            0 <= s.status < 1000 && |s.told| <= 8 && forall h :: h in s.told ==> Survives(h)
  {
    HeadersSurvive(Classify(req.verb), ValidStatus(req, c.protocol), x);
    ClosesIffError(Classify(req.verb), ValidStatus(req, c.protocol), x);
  }

  lemma ServedSurvives(c: Conn, x: Env, deadline: int)
    requires PlainTexts(x)
    ensures var s := Serve(c, x, deadline);
            0 <= s.status < 1000 && |s.told| <= 8 && forall h :: h in s.told ==> Survives(h)
  {
    if x.ingress.HeadersRead? {
      var req := x.ingress.req;
      var demuxed := c.protocol == ProtoUnknown;
      var c1 := if demuxed then c.(protocol := x.sniffed) else c;
      var c2 := if SameIgnoringCase(req.version, "HTTP/1.0") then c1.(protocol := Http10) else c1;
      ReplySurvives(c2, demuxed, req, x, deadline);
    }
  }

  lemma NothingIsCut(status: nat, reason: string, hs: seq<Header>)
    requires status < 1000 && |hs| <= 8 && forall i :: 0 <= i < |hs| ==> Survives(hs[i])
    ensures Fitted(AsMessage(status, reason, hs)) == Request("HTTP/1.1", Decimal(status), Cut(reason, 15), hs)
  {
    ThreeDigits(status);
    assert forall i :: 0 <= i < |hs| ==> Header(Cut(hs[i].key, 127), Cut(hs[i].value, 4095)) == hs[i];
    assert CutHeaders(hs) == hs;
  }

  /** For every exchange that is answered, the block that is printed for it fits the buffer, and whoever parses
      its bytes gets as second word the status in decimal digits, the reason cut to 15 bytes, and exactly the
      headers of the response. */
  lemma AnswerIsRecovered(c: Conn, x: Env, deadline: int, reason: string)
    requires PlainTexts(x) && Lacks(reason, {'\r', '\n'}) && |reason| <= 100
    ensures var s := Serve(c, x, deadline);
            && s.status >= 0
            && var block := Block(s.status, reason, s.told);
            && |block| < 8192
            && Spells(Parse(block).uri, s.status)
            && Parse(block) == Request("HTTP/1.1", Parse(block).uri, Cut(reason, 15), s.told)
  {
    var s := Serve(c, x, deadline);
    ServedSurvives(c, x, deadline);
    assert forall i :: 0 <= i < |s.told| ==> s.told[i] in s.told;
    BlockIsShort(Response(s.status, s.told), reason);
    BlockIsRecovered(s.status, reason, s.told);
    NothingIsCut(s.status, reason, s.told);
  }
}

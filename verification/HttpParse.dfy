/**
  The HTTP/1 request parser as a state machine over the bytes of the header block, what it recovers from a
  printed message, and (section 3 and section 5 of RFC 9112) why that undoes the printer.
 */
module HttpParse {
  import opened Text
  import opened Exchange

  const MAX_HEADERS := 128

  datatype Phase = InMethod | InUri | InVersion | InKey | InValue | InBody | Done

  /** The parser between two bytes: `cur` is the token under construction, `key` the last complete key. */
  datatype Parser = Parser(phase: Phase, cur: string, key: string, req: Request)

  const START := Parser(InMethod, "", "", Request("", "", "", []))

  /** How much of a token is stored: one less than its array. */
  function Limit(p: Phase): nat {
    match p
    case InMethod => 15
    case InUri => 4095
    case InVersion => 15
    case InKey => 127
    case _ => 4095
  }

  function Append(cur: string, c: char, limit: nat): string {
    if |cur| < limit then cur + [c] else cur
  }

  /** One byte, the colon after a key apart. */
  function Consume(m: Parser, c: char): Parser {
    var longer := m.(cur := Append(m.cur, c, Limit(m.phase)));
    match m.phase
    case InMethod =>
      if c == ' ' then m.(phase := InUri, cur := "", req := m.req.(verb := m.cur)) else longer
    case InUri =>
      if c == ' ' then m.(phase := InVersion, cur := "", req := m.req.(uri := m.cur)) else longer
    case InVersion =>
      if c == '\r' then m
      else if c == '\n' then m.(phase := InKey, cur := "", req := m.req.(version := m.cur))
      else longer
    case InKey =>
      if c == '\r' then m else if c == '\n' then m.(phase := InBody) else longer
    case InValue =>
      if c == '\r' then m
      else if c == '\n' then
        var headers := m.req.headers + [Header(m.key, m.cur)];
        m.(phase := if |headers| >= MAX_HEADERS then InBody else InKey, cur := "", req := m.req.(headers := headers))
      else longer
    case InBody => m.(phase := Done)
    case Done => m
  }

  /** The colon after a key. */
  function AtColon(m: Parser): Parser {
    m.(phase := InValue, key := m.cur, cur := "")
  }

  function SkipSpaces(s: string): (r: string)
    ensures |r| <= |s|
  {
    if s != "" && s[0] == ' ' then SkipSpaces(s[1..]) else s
  }

  /** The parser's loop on the bytes `s` that are left. */
  function Run(s: string, m: Parser): Parser
    decreases |s|
  {
    if s == "" || m.phase == Done then m
    else if m.phase == InKey && s[0] == ':' then
      Run(SkipSpaces(s[1..]), AtColon(m))
    else Run(s[1..], Consume(m, s[0]))
  }

  /** The fields when the bytes run out: an unfinished request line keeps its partial token. */
  function Fields(m: Parser): Request {
    match m.phase
    case InMethod => m.req.(verb := m.cur)
    case InUri => m.req.(uri := m.cur)
    case InVersion => m.req.(version := m.cur)
    case _ => m.req
  }

  /** What parse_http1 stores for a header block. */
  function Parse(s: string): Request {
    Fields(Run(s, START))
  }

  // ---- Printing

  /** Line ends and the spaces after a colon may differ from line to line. */
  datatype Layout = Layout(crlf: bool, pad: nat)

  function Eol(l: Layout): string {
    if l.crlf then "\r\n" else "\n"
  }

  function Spaces(n: nat): string {
    if n == 0 then "" else " " + Spaces(n - 1)
  }

  function HeaderLine(h: Header, l: Layout): string {
    h.key + ":" + Spaces(l.pad) + h.value + Eol(l)
  }

  function HeaderLines(hs: seq<Header>, ls: seq<Layout>): string
    requires |ls| == |hs|
  {
    if hs == [] then "" else HeaderLine(hs[0], ls[0]) + HeaderLines(hs[1..], ls[1..])
  }

  /** A message: start line of three words, headers, empty line, body. */
  function Print(r: Request, first: Layout, ls: seq<Layout>, last: Layout, body: string): string
    requires |ls| == |r.headers|
  {
    r.verb + (" " + (r.uri + (" " + (r.version + (Eol(first) + (HeaderLines(r.headers, ls) + (Eol(last) + body)))))))
  }

  /** The start line without its line end. */
  function StartLine(r: Request): string {
    r.verb + (" " + (r.uri + (" " + r.version)))
  }

  lemma StartLineThen(r: Request, rest: string)
    ensures StartLine(r) + rest == r.verb + (" " + (r.uri + (" " + (r.version + rest))))
  {
    Regroup(r.verb, " " + (r.uri + (" " + r.version)), rest);
    Regroup(" ", r.uri + (" " + r.version), rest);
    Regroup(r.uri, " " + r.version, rest);
    Regroup(" ", r.version, rest);
  }

  predicate Lacks(s: string, bad: set<char>) {
    forall i :: 0 <= i < |s| ==> s[i] !in bad
  }

  predicate PlainHeader(h: Header) {
    && Lacks(h.key, {':', '\r', '\n'})
    && Lacks(h.value, {'\r', '\n'}) && (h.value != "" ==> h.value[0] != ' ')
  }

  /** Free of the delimiters that end each part. */
  predicate Plain(r: Request) {
    && Lacks(r.verb, {' '}) && Lacks(r.uri, {' '}) && Lacks(r.version, {'\r', '\n'})
    && (forall i :: 0 <= i < |r.headers| ==> PlainHeader(r.headers[i]))
  }

  function Cut(s: string, limit: nat): string {
    if |s| <= limit then s else s[..limit]
  }

  function CutHeaders(hs: seq<Header>): seq<Header> {
    seq(|hs|, i requires 0 <= i < |hs| => Header(Cut(hs[i].key, 127), Cut(hs[i].value, 4095)))
  }

  function FirstOf(hs: seq<Header>, n: nat): seq<Header> {
    if |hs| <= n then hs else hs[..n]
  }

  /** What fits into the request's arrays. */
  function Fitted(r: Request): Request {
    Request(Cut(r.verb, 15), Cut(r.uri, 4095), Cut(r.version, 15),
            CutHeaders(FirstOf(r.headers, 128)))
  }

  // ---- The parser undoes the printer

  /** Bytes that the phase merely collects. */
  function Enders(p: Phase): set<char> {
    match p
    case InMethod => {' '}
    case InUri => {' '}
    case InVersion => {'\r', '\n'}
    case InKey => {':', '\r', '\n'}
    case _ => {'\r', '\n'}
  }

  lemma {:induction false} CollectsToken(t: string, rest: string, m: Parser)
    requires m.phase in {InMethod, InUri, InVersion, InKey, InValue} && Lacks(t, Enders(m.phase))
    requires |m.cur| <= Limit(m.phase)
    ensures Run(t + rest, m) == Run(rest, m.(cur := Cut(m.cur + t, Limit(m.phase))))
  {
    if t == "" {
      assert t + rest == rest && m.cur + t == m.cur;
    } else {
      var c, limit := t[0], Limit(m.phase);
      assert (t + rest)[0] == c && (t + rest)[1..] == t[1..] + rest;
      var m1 := m.(cur := Append(m.cur, c, limit));
      assert Consume(m, c) == m1;
      CollectsToken(t[1..], rest, m1);
      if |m.cur| < limit {
        assert m1.cur + t[1..] == m.cur + t;
      } else {
        assert (m1.cur + t[1..])[..limit] == m.cur == (m.cur + t)[..limit];
      }
    }
  }

  lemma EndsLine(l: Layout, rest: string, m: Parser)
    requires m.phase in {InVersion, InKey, InValue}
    ensures Run(Eol(l) + rest, m) == Run(rest, Consume(m, '\n'))
  {
    if l.crlf {
      assert (Eol(l) + rest)[1..] == "\n" + rest;
      assert Consume(m, '\r') == m;
    }
    assert ("\n" + rest)[1..] == rest;
  }

  lemma SkipsOne(rest: string)
    ensures SkipSpaces(" " + rest) == SkipSpaces(rest)
  {
    assert (" " + rest)[1..] == rest;
  }

  lemma {:induction false} SkipsPadding(n: nat, rest: string)
    requires rest != "" ==> rest[0] != ' '
    ensures SkipSpaces(Spaces(n) + rest) == rest
  {
    if n > 0 {
      Regroup(" ", Spaces(n - 1), rest);
      SkipsOne(Spaces(n - 1) + rest);
      SkipsPadding(n - 1, rest);
    } else {
      assert Spaces(n) + rest == rest;
    }
  }

  lemma EatsWord(t: string, rest: string, m: Parser)
    requires m.phase in {InMethod, InUri} && m.cur == "" && Lacks(t, {' '})
    ensures Run(t + (" " + rest), m) == Run(rest, Consume(m.(cur := Cut(t, Limit(m.phase))), ' '))
  {
    CollectsToken(t, " " + rest, m);
    assert m.cur + t == t && (" " + rest)[1..] == rest;
  }

  lemma EatsLine(t: string, l: Layout, rest: string, m: Parser)
    requires m.phase in {InVersion, InValue} && m.cur == "" && Lacks(t, {'\r', '\n'})
    ensures Run(t + (Eol(l) + rest), m) == Run(rest, Consume(m.(cur := Cut(t, Limit(m.phase))), '\n'))
  {
    CollectsToken(t, Eol(l) + rest, m);
    assert m.cur + t == t;
    EndsLine(l, rest, m.(cur := Cut(t, Limit(m.phase))));
  }

  lemma EatsKey(t: string, pad: nat, rest: string, m: Parser)
    requires m.phase == InKey && m.cur == "" && Lacks(t, {':', '\r', '\n'})
    requires rest != "" ==> rest[0] != ' '
    ensures Run(t + (":" + (Spaces(pad) + rest)), m) == Run(rest, m.(phase := InValue, key := Cut(t, 127), cur := ""))
  {
    var on := Spaces(pad) + rest;
    CollectsToken(t, ":" + on, m);
    assert m.cur + t == t && (":" + on)[1..] == on;
    SkipsPadding(pad, rest);
  }

  lemma ParsesHeaderLine(h: Header, l: Layout, rest: string, m: Parser)
    requires m.phase == InKey && m.cur == "" && PlainHeader(h)
    ensures var key, value := Cut(h.key, 127), Cut(h.value, 4095);
            Run(HeaderLine(h, l) + rest, m) == Run(rest, Consume(Parser(InValue, value, key, m.req), '\n'))
  {
    var on := h.value + (Eol(l) + rest);
    assert HeaderLine(h, l) + rest == h.key + (":" + (Spaces(l.pad) + on));
    EatsKey(h.key, l.pad, on, m);
    EatsLine(h.value, l, rest, m.(phase := InValue, key := Cut(h.key, 127), cur := ""));
  }

  /** Header lines are collected in order until the array of headers is full. */
  lemma {:induction false} ParsesHeaderLines(hs: seq<Header>, ls: seq<Layout>, rest: string, m: Parser)
    requires |ls| == |hs| && m.phase == InKey && m.cur == "" && |m.req.headers| < MAX_HEADERS
    requires forall i :: 0 <= i < |hs| ==> PlainHeader(hs[i])
    requires |rest| >= 1 && (rest[0] == '\n' || (rest[0] == '\r' && |rest| >= 2 && rest[1] == '\n'))
    ensures var room := MAX_HEADERS - |m.req.headers|;
            && Run(HeaderLines(hs, ls) + rest, m).req
               == m.req.(headers := m.req.headers + CutHeaders(FirstOf(hs, room)))
            && Run(HeaderLines(hs, ls) + rest, m).phase in {InBody, Done}
    decreases |hs|
  {
    var room := MAX_HEADERS - |m.req.headers|;
    if hs == [] {
      assert HeaderLines(hs, ls) + rest == rest && CutHeaders(hs) == [];
      StopsAtEmptyLine(rest, m);
      assert m.req.headers + [] == m.req.headers;
    } else {
      var more := HeaderLines(hs[1..], ls[1..]) + rest;
      Regroup(HeaderLine(hs[0], ls[0]), HeaderLines(hs[1..], ls[1..]), rest);
      ParsesHeaderLine(hs[0], ls[0], more, m);
      OneMoreHeader(hs, room);
      var m1 := AfterLine(m, hs[0]);
      if room == 1 {
        StaysInBody(more, m1);
        assert FirstOf(hs[1..], 0) == [];
      } else {
        ParsesHeaderLines(hs[1..], ls[1..], rest, m1);
      }
      Regroup(m.req.headers, m1.req.headers[|m.req.headers|..], CutHeaders(FirstOf(hs[1..], room - 1)));
    }
  }

  /** The parser after a header line. */
  function AfterLine(m: Parser, h: Header): Parser {
    Consume(Parser(InValue, Cut(h.value, 4095), Cut(h.key, 127), m.req), '\n')
  }

  lemma OneMoreHeader(hs: seq<Header>, room: nat)
    requires hs != [] && room > 0
    ensures CutHeaders(FirstOf(hs, room))
            == [Header(Cut(hs[0].key, 127), Cut(hs[0].value, 4095))] + CutHeaders(FirstOf(hs[1..], room - 1))
  {
    assert FirstOf(hs, room)[1..] == FirstOf(hs[1..], room - 1);
  }

  lemma {:induction false} StaysInBody(s: string, m: Parser)
    requires m.phase == InBody || m.phase == Done
    ensures Run(s, m).req == m.req && Run(s, m).phase in {InBody, Done}
  {
    if s != "" && m.phase == InBody {
      StaysInBody(s[1..], Consume(m, s[0]));
    }
  }

  lemma StopsAtEmptyLine(rest: string, m: Parser)
    requires m.phase == InKey
    requires |rest| >= 1 && (rest[0] == '\n' || (rest[0] == '\r' && |rest| >= 2 && rest[1] == '\n'))
    ensures Run(rest, m).req == m.req && Run(rest, m).phase in {InBody, Done}
  {
    if rest[0] == '\n' {
      StaysInBody(rest[1..], Consume(m, '\n'));
    } else {
      assert Run(rest, m) == Run(rest[1..], m);
      assert Run(rest[1..], m) == Run(rest[1..][1..], Consume(m, '\n'));
      StaysInBody(rest[1..][1..], Consume(m, '\n'));
    }
  }

  /** For every message whose parts are free of their delimiters, in any mix of CRLF and bare LF line ends and
      any padding after the colons, parsing the printed message gives back its fields, cut to what their
      arrays hold, and its first 128 headers in order. */
  lemma ParserUndoesPrinter(r: Request, first: Layout, ls: seq<Layout>, last: Layout, body: string)
    requires |ls| == |r.headers| && Plain(r)
    ensures Parse(Print(r, first, ls, last, body)) == Fitted(r)
  {
    var end := Eol(last) + body;
    var headers := HeaderLines(r.headers, ls) + end;
    var versionOn := r.version + (Eol(first) + headers);
    var uriOn := r.uri + (" " + versionOn);
    var m0, m1, m2, m3 := START, AfterWords(r, 1), AfterWords(r, 2), AfterWords(r, 3);
    EatsWord(r.verb, uriOn, m0);
    EatsWord(r.uri, versionOn, m1);
    EatsLine(r.version, first, headers, m2);
    ParsesHeaderLines(r.headers, ls, end, m3);
    var taken := CutHeaders(FirstOf(r.headers, MAX_HEADERS));
    assert [] + taken == taken;
  }

  /** The parser after the first `n` words of the start line. */
  function AfterWords(r: Request, n: nat): Parser {
    if n == 1 then Parser(InUri, "", "", Request(Cut(r.verb, 15), "", "", []))
    else if n == 2 then Parser(InVersion, "", "", Request(Cut(r.verb, 15), Cut(r.uri, 4095), "", []))
    else Parser(InKey, "", "", Request(Cut(r.verb, 15), Cut(r.uri, 4095), Cut(r.version, 15), []))
  }

  lemma EndsInWord(t: string, m: Parser)
    requires m.phase in {InMethod, InUri, InVersion} && m.cur == "" && Lacks(t, Enders(m.phase))
    ensures Run(t, m) == m.(cur := Cut(t, Limit(m.phase)))
  {
    CollectsToken(t, "", m);
    assert t + "" == t == m.cur + t;
  }

  /** A start line that breaks off keeps what there is of each word. */
  lemma UnfinishedLine(verb: string, uri: string, version: string)
    requires Lacks(verb, {' '}) && Lacks(uri, {' '}) && Lacks(version, {'\r', '\n'})
    ensures Parse(verb) == Request(Cut(verb, 15), "", "", [])
    ensures Parse(verb + (" " + uri)) == Request(Cut(verb, 15), Cut(uri, 4095), "", [])
    ensures Parse(verb + (" " + (uri + (" " + version))))
            == Request(Cut(verb, 15), Cut(uri, 4095), Cut(version, 15), [])
  {
    var r := Request(verb, uri, version, []);
    EndsInWord(verb, START);
    EatsWord(verb, uri, START);
    EndsInWord(uri, AfterWords(r, 1));
    EatsWord(verb, uri + (" " + version), START);
    EatsWord(uri, version, AfterWords(r, 1));
    EndsInWord(version, AfterWords(r, 2));
  }

  // ---- The stored fields are C strings

  const ZERO := {'\0'}

  predicate TextHeaders(hs: seq<Header>) {
    forall i :: 0 <= i < |hs| ==> Lacks(hs[i].key, ZERO) && Lacks(hs[i].value, ZERO)
  }

  /** No zero byte in any field. */
  predicate IsText(r: Request) {
    (Lacks(r.verb, ZERO), Lacks(r.uri, ZERO), Lacks(r.version, ZERO), TextHeaders(r.headers))
    == (true, true, true, true)
  }

  predicate TextParser(m: Parser) {
    (IsText(m.req), Lacks(m.cur, ZERO), Lacks(m.key, ZERO)) == (true, true, true)
  }

  lemma ConsumeKeepsText(m: Parser, c: char)
    requires TextParser(m) && c != '\0'
    ensures TextParser(Consume(m, c))
  {
  }

  lemma SkipKeepsText(s: string)
    requires Lacks(s, ZERO)
    ensures Lacks(SkipSpaces(s), ZERO)
  {
  }

  lemma {:induction false} RunKeepsText(s: string, m: Parser)
    requires Lacks(s, ZERO) && TextParser(m)
    ensures TextParser(Run(s, m))
    decreases |s|
  {
    if s != "" && m.phase != Done {
      if m.phase == InKey && s[0] == ':' {
        SkipKeepsText(s[1..]);
        RunKeepsText(SkipSpaces(s[1..]), AtColon(m));
      } else {
        ConsumeKeepsText(m, s[0]);
        RunKeepsText(s[1..], Consume(m, s[0]));
      }
    }
  }

  /** A block without zero bytes yields fields without zero bytes, so they can be read as C strings. */
  lemma ParseYieldsText(s: string)
    requires Lacks(s, ZERO)
    ensures IsText(Parse(s))
  {
    RunKeepsText(s, START);
  }
}

/**
  From the client's request to the stored fields: print, any fragmentation, read, parse.
 */
module HttpIngress {
  import opened Text
  import opened Exchange
  import opened HttpParse
  import opened HttpRead

  const STOPS := {'\r', '\0'}

  predicate CleanHeader(h: Header) {
    Lacks(h.key, STOPS) && Lacks(h.value, STOPS)
  }

  /** No carriage return and no zero byte in any part. */
  predicate Clean(r: Request) {
    && Lacks(r.verb, STOPS) && Lacks(r.uri, STOPS) && Lacks(r.version, STOPS)
    && forall i :: 0 <= i < |r.headers| ==> CleanHeader(r.headers[i])
  }

  predicate AllCrlf(ls: seq<Layout>) {
    forall i :: 0 <= i < |ls| ==> ls[i].crlf
  }

  const CRLF := Layout(true, 1)

  function Later(h: int, n: nat): int {
    if h < 0 then -1 else h + n
  }

  /** Text without stops holds no part of the marker. */
  lemma {:induction false} EndIsBehind(t: string, rest: string)
    requires Lacks(t, STOPS)
    ensures HeaderEnd(t + rest) == Later(HeaderEnd(rest), |t|)
  {
    if t == "" {
      assert t + rest == rest;
    } else {
      assert (t + rest)[0] == t[0] && t[0] !in STOPS && (t + rest)[1..] == t[1..] + rest;
      EndIsBehind(t[1..], rest);
      if |t + rest| >= 4 {
        assert (t + rest)[..4][0] == t[0] && MARKER[0] == '\r';
      }
    }
  }

  /** A line end that is not followed by another one. */
  lemma EndIsBehindLine(rest: string)
    requires rest != "" && rest[0] != '\r'
    ensures HeaderEnd("\r\n" + rest) == Later(HeaderEnd(rest), 2)
  {
    var s := "\r\n" + rest;
    assert s[1..] == "\n" + rest && ("\n" + rest)[1..] == rest;
    if |s| >= 4 {
      assert s[..4][2] == rest[0] && MARKER[2] == '\r';
      assert s[1..][0] == '\n';
      if |s[1..]| >= 4 {
        assert s[1..][..4][0] == '\n' && MARKER[0] == '\r';
      }
    }
  }

  lemma {:induction false} SpacesAreClean(n: nat)
    ensures Lacks(Spaces(n), STOPS)
  {
    if n > 0 {
      SpacesAreClean(n - 1);
    }
  }

  /** The part of a header line before its line end. */
  function LineText(h: Header, l: Layout): string {
    h.key + (":" + (Spaces(l.pad) + h.value))
  }

  lemma LineIsText(h: Header, l: Layout)
    requires l.crlf && CleanHeader(h)
    ensures HeaderLine(h, l) == LineText(h, l) + "\r\n"
    ensures Lacks(LineText(h, l), STOPS) && LineText(h, l) != ""
  {
    SpacesAreClean(l.pad);
  }

  /** From the line end before the headers, the first empty line is the one that closes them. */
  lemma {:induction false} LinesEnd(hs: seq<Header>, ls: seq<Layout>, body: string)
    requires |ls| == |hs| && AllCrlf(ls) && forall i :: 0 <= i < |hs| ==> CleanHeader(hs[i])
    ensures HeaderEnd("\r\n" + (HeaderLines(hs, ls) + ("\r\n" + body))) == 2 + |HeaderLines(hs, ls)| + 2
    decreases |hs|
  {
    var end := "\r\n" + body;
    if hs == [] {
      assert HeaderLines(hs, ls) + end == end;
      assert ("\r\n" + end)[..4] == MARKER;
    } else {
      var t, more := LineText(hs[0], ls[0]), HeaderLines(hs[1..], ls[1..]) + end;
      LineIsText(hs[0], ls[0]);
      LinesEnd(hs[1..], ls[1..], body);
      Regroup(HeaderLine(hs[0], ls[0]), HeaderLines(hs[1..], ls[1..]), end);
      Regroup(t, "\r\n", more);
      EndIsBehindLine(t + ("\r\n" + more));
      EndIsBehind(t, "\r\n" + more);
    }
  }

  /** The header block as the client sends it. */
  function Head(r: Request, ls: seq<Layout>): string
    requires |ls| == |r.headers|
  {
    Print(r, CRLF, ls, CRLF, "")
  }

  lemma PrintIsHeadAndBody(r: Request, ls: seq<Layout>, body: string)
    requires |ls| == |r.headers|
    ensures Print(r, CRLF, ls, CRLF, body) == Head(r, ls) + body
    ensures Print(r, CRLF, ls, CRLF, body) == StartLine(r) + ("\r\n" + (HeaderLines(r.headers, ls) + ("\r\n" + body)))
    ensures |Head(r, ls)| == |StartLine(r)| + 2 + |HeaderLines(r.headers, ls)| + 2
  {
    var lines := HeaderLines(r.headers, ls);
    StartLineThen(r, "\r\n" + (lines + ("\r\n" + body)));
    StartLineThen(r, "\r\n" + (lines + ("\r\n" + "")));
    Regroup(StartLine(r), "\r\n" + (lines + ("\r\n" + "")), body);
    Regroup("\r\n", lines + ("\r\n" + ""), body);
    Regroup(lines, "\r\n" + "", body);
    Regroup("\r\n", "", body);
    assert "" + body == body;
  }

  lemma StartLineIsClean(r: Request)
    requires Clean(r)
    ensures Lacks(StartLine(r), STOPS)
  {
  }

  /** The reader finds the end of a printed block exactly where the printer put it. */
  lemma HeadEndsWherePrinted(r: Request, ls: seq<Layout>, body: string)
    requires |ls| == |r.headers| && AllCrlf(ls) && Clean(r)
    ensures HeaderEnd(Head(r, ls) + body) == |Head(r, ls)|
  {
    PrintIsHeadAndBody(r, ls, body);
    StartLineIsClean(r);
    EndIsBehind(StartLine(r), "\r\n" + (HeaderLines(r.headers, ls) + ("\r\n" + body)));
    LinesEnd(r.headers, ls, body);
  }

  lemma HeadIsReadable(head: string, body: string)
    requires HeaderEnd(head) == |head| && HeaderEnd(head + body) == |head|
    ensures BlockEnd(head + body) == if |head| <= LIMIT then |head| else -1
  {
    var stream := head + body;
    assert stream[..|head|] == head && stream[..|stream|] == stream;
    if |head| <= LIMIT {
      PrefixDecides(stream, |head|, Min(LIMIT, |stream|));
    } else if BlockEnd(stream) >= 0 {
      PrefixDecides(stream, LIMIT, |stream|);
    }
  }

  lemma ReadIsHeadAndMore(head: string, body: string, got: nat)
    requires |head| <= got <= |head + body|
    ensures (head + body)[..got][..|head|] == head && (head + body)[|head|..got] <= body
  {
    assert (head + body)[|head|..got] == body[..got - |head|];
  }

  /** A request with CRLF line ends and clean, delimiter-free parts, followed by any body and arriving in any
      pieces, is accepted exactly when its header block has at most 8191 bytes; then what is stored are the
      client's own fields, cut to their arrays, and what was read beyond the block is the start of the body. */
  lemma RequestSurvivesTheWire(r: Request, ls: seq<Layout>, body: string, script: seq<Event>)
    requires |ls| == |r.headers| && AllCrlf(ls) && Clean(r) && Plain(r)
    requires Benign(script) && Offered(script) >= Min(8191, |Head(r, ls) + body|)
    ensures var head := Head(r, ls);
            var stream := head + body;
            var o := ReadAll(stream, script, 0);
            && (o.rc == 0 <==> |head| <= 8191) && (o.rc == -3 <==> |head| > 8191)
            && (o.rc == 0 ==>
                  && HeaderEnd(stream[..o.got]) == |head| <= o.got
                  && Parse(stream[..o.got][..|head|]) == Fitted(r)
                  && stream[|head|..o.got] <= body)
  {
    var head := Head(r, ls);
    var stream := head + body;
    var o := ReadAll(stream, script, 0);
    HeadEndsWherePrinted(r, ls, body);
    HeadEndsWherePrinted(r, ls, "");
    assert head + "" == head;
    HeadIsReadable(head, body);
    EverySplitDecides(stream, script);
    ReadingIsFaithful(stream, script, 0);
    if o.rc == 0 {
      ReadIsHeadAndMore(head, body, o.got);
      ParserUndoesPrinter(r, CRLF, ls, CRLF, "");
    }
  }

  lemma {:induction false} EndHasNoZeroBefore(s: string)
    requires HeaderEnd(s) >= 0
    ensures Lacks(s[..HeaderEnd(s)], ZERO)
  {
    var h := HeaderEnd(s);
    if s[..4] == MARKER {
      assert Lacks(MARKER, ZERO);
    } else {
      EndHasNoZeroBefore(s[1..]);
      assert s[..h] == [s[0]] + s[1..][..h - 1];
    }
  }

  /** A header block that was read holds no zero byte, so its fields are C strings. */
  lemma BlockIsText(stream: string)
    requires BlockEnd(stream) >= 0
    ensures Lacks(stream[..BlockEnd(stream)], ZERO)
  {
    EndHasNoZeroBefore(Readable(stream));
    assert Readable(stream)[..BlockEnd(stream)] == stream[..BlockEnd(stream)];
  }

  /** What a worker gets from reading and parsing a stream. */
  function Ingested(stream: string, script: seq<Event>): Ingress {
    ReadingIsFaithful(stream, script, 0);
    var o := ReadAll(stream, script, 0);
    if o.rc == 0 then HeadersRead(Parse(stream[..HeaderEnd(stream[..o.got])])) else ReadFailed(o.rc)
  }

  /** Such a request is answered as the client wrote it, whatever pieces it came in - or, if its block is too
      long, with 431 and the end of the connection. */
  lemma AnswersWhatWasSent(c: Conn, x: Env, deadline: int, r: Request, ls: seq<Layout>, body: string,
                           script: seq<Event>)
    requires |ls| == |r.headers| && AllCrlf(ls) && Clean(r) && Plain(r)
    requires Benign(script) && Offered(script) >= Min(8191, |Head(r, ls) + body|)
    requires x.ingress == Ingested(Head(r, ls) + body, script) && (c.isTls ==> x.handshake)
    ensures var s := Serve(c, x, deadline);
            && (|Head(r, ls)| > 8191 ==> s.status == 431 && !s.keep)
            && (|Head(r, ls)| <= 8191 ==> s == Serve(c, x.(ingress := HeadersRead(Fitted(r))), deadline))
  {
    var head := Head(r, ls);
    var stream := head + body;
    RequestSurvivesTheWire(r, ls, body, script);
    if |head| <= LIMIT {
      var o := ReadAll(stream, script, 0);
      assert stream[..|head|] == stream[..o.got][..|head|];
      assert x.(ingress := HeadersRead(Fitted(r))) == x;
    }
  }
}

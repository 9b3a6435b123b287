/**
  Reading a request's header block from a socket, whatever pieces it arrives in: read_http_headers over its
  buffer, and what does not depend on the pieces.
 */
module HttpRead {
  import opened Text
  import opened HttpParse

  const BUFFER_SIZE := 8192
  const LIMIT := BUFFER_SIZE - 1
  const MARKER := "\r\n\r\n"

  datatype Poll = Ready | TimedOut | PollFailed

  /** What one conn_read meets: up to `n` bytes (none when the peer has closed), a signal, an empty socket and
      the poll that follows, or an error. */
  datatype Event = Bytes(n: nat) | Interrupted | NotYet(poll: Poll) | Broken

  datatype Outcome = Outcome(rc: int, got: nat)

  function Min(a: int, b: int): int {
    if a <= b then a else b
  }

  /** The bytes one read moves: no more than offered, than the buffer has room for, than the peer sent. */
  function Moved(n: nat, got: nat, stream: string): (k: nat)
    requires got <= LIMIT && got <= |stream|
    ensures got + k <= LIMIT && got + k <= |stream|
  {
    Min(n, Min(LIMIT - got, |stream| - got))
  }

  /** strstr for the marker in the C string `s`: where the header block ends, or -1. */
  function HeaderEnd(s: string): (r: int)
    ensures r == -1 || 4 <= r <= |s|
  {
    if |s| < 4 || s[0] == '\0' then -1
    else if s[..4] == MARKER then 4
    else
      var rest := HeaderEnd(s[1..]);
      if rest < 0 then -1 else rest + 1
  }

  const GO_ON := 1

  /** One turn of the loop of read_http_headers; `GO_ON` means that there is another. */
  function Turn(stream: string, event: Event, got: nat): (o: Outcome)
    requires got <= LIMIT && got <= |stream|
    ensures got <= o.got <= LIMIT && o.got <= |stream| && o.rc in {GO_ON, 0, -1, -2, -4}
  {
    match event
    case Interrupted => Outcome(GO_ON, got)
    case NotYet(Ready) => Outcome(GO_ON, got)
    case NotYet(TimedOut) => Outcome(-4, got)
    case NotYet(PollFailed) => Outcome(-1, got)
    case Broken => Outcome(-1, got)
    case Bytes(n) =>
      var k := Moved(n, got, stream);
      if k == 0 then Outcome(-2, got)
      else Outcome(if HeaderEnd(stream[..got + k]) >= 0 then 0 else GO_ON, got + k)
  }

  /** The loop after `got` bytes; a script that runs out is a peer that has closed. */
  function ReadAll(stream: string, script: seq<Event>, got: nat): (o: Outcome)
    requires got <= LIMIT && got <= |stream|
    ensures got <= o.got <= LIMIT && o.got <= |stream| && o.rc in {0, -1, -2, -3, -4}
  {
    if got >= LIMIT then Outcome(-3, got)
    else if script == [] then Outcome(-2, got)
    else
      var t := Turn(stream, script[0], got);
      if t.rc == GO_ON then ReadAll(stream, script[1..], t.got) else t
  }

  // ---- The marker

  lemma {:induction false} HeaderEndIsMarker(s: string)
    requires HeaderEnd(s) >= 0
    ensures At(s, HeaderEnd(s) - 4, MARKER)
  {
    var h := HeaderEnd(s);
    if s[..4] == MARKER {
      assert s[0..4] == s[..4];
    } else {
      HeaderEndIsMarker(s[1..]);
      assert s[1..][h - 1 - 4..h - 1] == s[h - 4..h];
    }
  }

  lemma AtTail(s: string, i: nat)
    requires s != "" && i > 0
    ensures At(s, i, MARKER) <==> At(s[1..], i - 1, MARKER)
  {
    if i + 4 <= |s| {
      assert s[1..][i - 1..i - 1 + 4] == s[i..i + 4];
    }
  }

  lemma NotAtFront(s: string)
    requires |s| < 4 || s[..4] != MARKER
    ensures !At(s, 0, MARKER)
  {
    assert |s| >= 4 ==> s[0..4] == s[..4];
  }

  lemma {:induction false} NoMarkerBefore(s: string, i: nat)
    requires i < HeaderEnd(s) - 4
    ensures !At(s, i, MARKER) && s[i] != '\0'
  {
    if i == 0 {
      NotAtFront(s);
    } else {
      AtTail(s, i);
      NoMarkerBefore(s[1..], i - 1);
    }
  }

  lemma {:induction false} NoMarkerAtAll(s: string, i: nat)
    requires HeaderEnd(s) < 0 && forall j :: 0 <= j < |s| ==> s[j] != '\0'
    ensures !At(s, i, MARKER)
  {
    if i + 4 <= |s| {
      if i == 0 {
        NotAtFront(s);
      } else {
        AtTail(s, i);
        NoMarkerAtAll(s[1..], i - 1);
      }
    }
  }

  /** HeaderEnd is the end of the first marker, with no zero byte before it, and misses one only behind a zero
      byte. */
  lemma HeaderEndIsFirst(s: string)
    ensures var h := HeaderEnd(s);
            && (h >= 0 ==> At(s, h - 4, MARKER) && forall i :: 0 <= i < h - 4 ==> !At(s, i, MARKER) && s[i] != '\0')
            && (h < 0 && '\0' !in s ==> !Contains(s, MARKER))
  {
    var h := HeaderEnd(s);
    if h >= 0 {
      HeaderEndIsMarker(s);
      forall i | 0 <= i < h - 4 ensures !At(s, i, MARKER) && s[i] != '\0' {
        NoMarkerBefore(s, i);
      }
    } else if '\0' !in s {
      forall i | 0 <= i <= |s| ensures !At(s, i, MARKER) {
        NoMarkerAtAll(s, i);
      }
    }
  }

  /** More bytes do not move the end of the header block. */
  lemma {:induction false} HeaderEndIsStable(s: string, t: string)
    requires HeaderEnd(s) >= 0
    ensures HeaderEnd(s + t) == HeaderEnd(s)
  {
    assert (s + t)[..4] == s[..4];
    if s[..4] != MARKER {
      assert (s + t)[1..] == s[1..] + t;
      HeaderEndIsStable(s[1..], t);
    }
  }

  lemma PrefixDecides(stream: string, i: nat, j: nat)
    requires i <= j <= |stream| && HeaderEnd(stream[..i]) >= 0
    ensures HeaderEnd(stream[..j]) == HeaderEnd(stream[..i])
  {
    assert stream[..j] == stream[..i] + stream[i..j];
    HeaderEndIsStable(stream[..i], stream[i..j]);
  }

  // ---- What reading yields

  /** The part of the stream that can be read at all. */
  function Readable(stream: string): string {
    stream[..Min(LIMIT, |stream|)]
  }

  /** Where the header block of a stream ends, whoever reads it. */
  function BlockEnd(stream: string): (r: int)
    ensures r == -1 || 4 <= r <= Min(LIMIT, |stream|)
  {
    HeaderEnd(Readable(stream))
  }

  lemma TurnDecides(stream: string, event: Event, got: nat)
    requires got <= LIMIT && got <= |stream| && HeaderEnd(stream[..got]) < 0
    ensures var t := Turn(stream, event, got);
            && (t.rc == 0 <==> HeaderEnd(stream[..t.got]) >= 0)
            && (t.rc == 0 ==> HeaderEnd(stream[..t.got]) == BlockEnd(stream))
  {
    var t := Turn(stream, event, got);
    if t.rc == 0 {
      PrefixDecides(stream, t.got, Min(LIMIT, |stream|));
    }
  }

  /** Return 0 means: the whole header block is in, and it is the stream's. Return -3 means: 8191 bytes are in
      and they hold no complete header block. Any other return left the question open. */
  lemma {:induction false} ReadingIsFaithful(stream: string, script: seq<Event>, got: nat)
    requires got <= LIMIT && got <= |stream| && HeaderEnd(stream[..got]) < 0
    ensures var o := ReadAll(stream, script, got);
            && (o.rc == 0 <==> HeaderEnd(stream[..o.got]) >= 0)
            && (o.rc == 0 ==> HeaderEnd(stream[..o.got]) == BlockEnd(stream))
            && (o.rc == -3 ==> o.got == LIMIT && BlockEnd(stream) < 0)
  {
    if got < LIMIT && script != [] {
      TurnDecides(stream, script[0], got);
      var t := Turn(stream, script[0], got);
      if t.rc == GO_ON {
        ReadingIsFaithful(stream, script[1..], t.got);
      }
    }
  }

  /** Two readings of one stream that both decide return the same code and the same header block, so the same
      parsed request, however the stream was cut up and interrupted. */
  lemma FragmentationIndependence(stream: string, one: seq<Event>, other: seq<Event>)
    ensures var a, b := ReadAll(stream, one, 0), ReadAll(stream, other, 0);
            a.rc in {0, -3} && b.rc in {0, -3} ==>
              && a.rc == b.rc
              && (a.rc == 0 ==> var h, h' := HeaderEnd(stream[..a.got]), HeaderEnd(stream[..b.got]);
                                && h == h' >= 0 && stream[..a.got][..h] == stream[..b.got][..h']
                                && Parse(stream[..a.got][..h]) == Parse(stream[..b.got][..h']))
  {
    ReadingIsFaithful(stream, one, 0);
    ReadingIsFaithful(stream, other, 0);
    var a, b := ReadAll(stream, one, 0), ReadAll(stream, other, 0);
    if a.rc == 0 && b.rc == 0 {
      var h := BlockEnd(stream);
      assert stream[..a.got][..h] == stream[..h] == stream[..b.got][..h];
    }
  }

  /** Only retries and non-empty reads. */
  predicate Benign(script: seq<Event>) {
    forall i :: 0 <= i < |script| ==>
      (script[i].Bytes? && script[i].n > 0) || script[i].Interrupted? || script[i] == NotYet(Ready)
  }

  function Offered(script: seq<Event>): nat {
    if script == [] then 0 else (if script[0].Bytes? then script[0].n else 0) + Offered(script[1..])
  }

  /** Every split of a stream into non-empty reads, with any retries between them, ends the same way: 0 when
      the header block ends within 8191 bytes, otherwise -3 once that many are in, and -2 when the peer stops
      earlier. */
  lemma EverySplitDecides(stream: string, script: seq<Event>)
    requires Benign(script) && Offered(script) >= Min(8191, |stream|)
    ensures var rc := ReadAll(stream, script, 0).rc;
            && (rc == 0 <==> BlockEnd(stream) >= 0)
            && (rc == -3 <==> BlockEnd(stream) < 0 && |stream| >= 8191)
            && (rc == -2 <==> BlockEnd(stream) < 0 && |stream| < 8191)
  {
    ReadingIsFaithful(stream, script, 0);
    BenignReadsOn(stream, script, 0);
  }

  /** A benign script is read to a decision, or to the end of the stream. */
  lemma {:induction false} BenignReadsOn(stream: string, script: seq<Event>, got: nat)
    requires got <= LIMIT && got <= |stream| && HeaderEnd(stream[..got]) < 0
    requires Benign(script) && got + Offered(script) >= Min(LIMIT, |stream|)
    ensures var o := ReadAll(stream, script, got);
            && o.rc in {0, -2, -3}
            && (o.rc == -2 ==> o.got == |stream| < LIMIT && BlockEnd(stream) < 0)
  {
    if got < LIMIT {
      if script == [] {
        assert stream[..got] == Readable(stream);
      } else if script[0].Bytes? {
        var k := Moved(script[0].n, got, stream);
        if k == 0 {
          assert stream[..got] == Readable(stream);
        } else if HeaderEnd(stream[..got + k]) < 0 {
          BenignReadsOn(stream, script[1..], got + k);
        }
      } else {
        BenignReadsOn(stream, script[1..], got);
      }
    }
  }

  /** A reading that is given up was given up for a reason: -4 after a poll that timed out, -1 after an error
      of the socket or of the poll; and the question was still open then. */
  lemma {:induction false} GivenUpForAReason(stream: string, script: seq<Event>, got: nat)
    requires got <= LIMIT && got <= |stream| && HeaderEnd(stream[..got]) < 0
    ensures var o := ReadAll(stream, script, got);
            && (o.rc == -4 ==> NotYet(TimedOut) in script && HeaderEnd(stream[..o.got]) < 0)
            && (o.rc == -1 ==> (Broken in script || NotYet(PollFailed) in script) && HeaderEnd(stream[..o.got]) < 0)
  {
    if got < LIMIT && script != [] {
      assert script == [script[0]] + script[1..];
      TurnDecides(stream, script[0], got);
      var t := Turn(stream, script[0], got);
      if t.rc == GO_ON {
        GivenUpForAReason(stream, script[1..], t.got);
      }
    }
  }

  /** A benign event that leaves the question open is read past. */
  lemma ReadsOn(stream: string, script: seq<Event>, got: nat, now: nat)
    requires script != [] && Benign(script[..1]) && now == got + if script[0].Bytes? then script[0].n else 0
    requires got < LIMIT && now <= LIMIT && now <= |stream| && HeaderEnd(stream[..now]) < 0
    ensures ReadAll(stream, script, got) == ReadAll(stream, script[1..], now)
  {
    assert script[..1][0] == script[0];
  }

  lemma StopsAt(stream: string, script: seq<Event>, got: nat)
    requires got < LIMIT && got <= |stream| && script != []
    requires script[0] in {NotYet(TimedOut), NotYet(PollFailed), Broken, Bytes(0)}
    ensures ReadAll(stream, script, got).rc ==
            if script[0] == NotYet(TimedOut) then -4 else if script[0] == Bytes(0) then -2 else -1
  {
  }

  /** What ends a reading for good while the question is open, whatever came before it: -4 for a poll that times
      out, -2 for a peer that has closed, -1 for an error of the poll or the socket. */
  lemma {:induction false} GivesUpAtOnce(stream: string, script: seq<Event>, i: nat, got: nat)
    requires i < |script| && Benign(script[..i])
    requires var now := got + Offered(script[..i]); now < 8191 && now <= |stream| && HeaderEnd(stream[..now]) < 0
    requires script[i] in {NotYet(TimedOut), NotYet(PollFailed), Broken, Bytes(0)}
    ensures ReadAll(stream, script, got).rc ==
            if script[i] == NotYet(TimedOut) then -4 else if script[i] == Bytes(0) then -2 else -1
  {
    if i == 0 {
      StopsAt(stream, script, got);
    } else {
      var now := got + if script[0].Bytes? then script[0].n else 0;
      assert script[..i][0] == script[0] && script[..i][1..] == script[1..][..i - 1];
      if HeaderEnd(stream[..now]) >= 0 {
        PrefixDecides(stream, now, got + Offered(script[..i]));
      }
      ReadsOn(stream, script, got, now);
      GivesUpAtOnce(stream, script[1..], i - 1, now);
    }
  }

  // ---- The code

  class HeaderReader {
    const buffer: array<char>
    var bytesRead: nat
    var overshoot: nat

    ghost predicate Valid()
      reads this
    {
      buffer.Length == BUFFER_SIZE && bytesRead <= LIMIT
    }

    constructor ()
      ensures Valid() && fresh(buffer) && bytesRead == 0 && overshoot == 0
    {
      buffer := new char[BUFFER_SIZE](_ => '\0');
      bytesRead, overshoot := 0, 0;
    }

    /** strstr(buf, "\r\n\r\n"), as the position behind the match, or -1. */
    method FindEnd() returns (h: int)
      requires Valid() && buffer[bytesRead] == '\0'
      ensures h == HeaderEnd(buffer[..bytesRead])
    {
      var i := 0;
      ghost var s := buffer[..bytesRead];
      while buffer[i] != '\0'
        invariant 0 <= i <= bytesRead
        invariant HeaderEnd(s) == if HeaderEnd(s[i..]) < 0 then -1 else i + HeaderEnd(s[i..])
        decreases bytesRead - i
      {
        assert s[i] == buffer[i] && s[i..][1..] == s[i + 1..];
        if buffer[i] == '\r' && buffer[i + 1] == '\n' && buffer[i + 2] == '\r' && buffer[i + 3] == '\n' {
          assert s[i..][..4] == MARKER;
          return i + 4;
        }
        if |s[i..]| >= 4 {
          assert s[i..][0] == buffer[i] && s[i..][1] == buffer[i + 1]
              && s[i..][2] == buffer[i + 2] && s[i..][3] == buffer[i + 3];
          assert MARKER[0] == '\r' && MARKER[1] == '\n' && MARKER[2] == '\r' && MARKER[3] == '\n';
          assert s[i..][..4] != MARKER;
        }
        i := i + 1;
      }
      return -1;
    }

    /** The bytes one conn_read stores at the offset. */
    method Store(stream: string, k: nat)
      requires Valid() && bytesRead + k <= LIMIT && bytesRead + k <= |stream|
      requires buffer[..bytesRead] == stream[..bytesRead]
      modifies buffer
      ensures buffer[..bytesRead + k] == stream[..bytesRead + k]
    {
      var j := 0;
      while j < k
        invariant 0 <= j <= k && buffer[..bytesRead + j] == stream[..bytesRead + j]
      {
        buffer[bytesRead + j] := stream[bytesRead + j];
        j := j + 1;
      }
    }

    /** What read_http_headers does with `k` new bytes. */
    method Receive(stream: string, k: nat) returns (complete: bool)
      requires Valid() && bytesRead + k <= LIMIT && bytesRead + k <= |stream|
      requires buffer[..bytesRead] == stream[..bytesRead]
      modifies this`bytesRead, this`overshoot, buffer
      ensures Valid()
      ensures var got := old(bytesRead) + k; var h := HeaderEnd(stream[..got]);
              && buffer[..got] == stream[..got] && (complete <==> h >= 0)
              && (if complete then bytesRead == h && overshoot == got - h
                  else bytesRead == got && overshoot == old(overshoot))
    {
      Store(stream, k);
      bytesRead := bytesRead + k;
      ghost var got := bytesRead;
      buffer[bytesRead] := '\0';
      assert buffer[..bytesRead] == stream[..bytesRead];
      var end := FindEnd();
      complete := end >= 0;
      if complete {
        overshoot := bytesRead - end;
        bytesRead := end;
      }
    }

    /** One turn of the loop: a conn_read and what follows from it. */
    method OneTurn(stream: string, event: Event) returns (rc: int)
      requires Valid() && bytesRead < LIMIT && bytesRead <= |stream|
      requires buffer[..bytesRead] == stream[..bytesRead]
      modifies this`bytesRead, this`overshoot, buffer
      ensures Valid()
      ensures var t := Turn(stream, event, old(bytesRead));
              && rc == t.rc && buffer[..t.got] == stream[..t.got]
              && (if rc == 0 then bytesRead == HeaderEnd(stream[..t.got]) && overshoot == t.got - bytesRead
                  else bytesRead == t.got && overshoot == old(overshoot))
    {
      match event
      case Interrupted => return GO_ON;
      case NotYet(poll) =>
        if poll == TimedOut { return -4; }
        if poll == PollFailed { return -1; }
        return GO_ON;
      case Broken => return -1;
      case Bytes(n) =>
        var k := Moved(n, bytesRead, stream);
        if k == 0 { return -2; }
        var complete := Receive(stream, k);
        return if complete then 0 else GO_ON;
    }

    /** read_http_headers. On success the buffer's header part followed by the overshoot is what was read. */
    method ReadHttpHeaders(stream: string, script: seq<Event>) returns (rc: int)
      requires Valid() && bytesRead == 0
      modifies this`bytesRead, this`overshoot, buffer
      ensures Valid()
      ensures var o := ReadAll(stream, script, 0);
              && rc == o.rc && buffer[..o.got] == stream[..o.got]
              && (rc == 0 ==> bytesRead == BlockEnd(stream) && bytesRead + overshoot == o.got
                              && buffer[..bytesRead] == stream[..BlockEnd(stream)])
              && (rc != 0 ==> bytesRead == o.got && overshoot == old(overshoot))
    {
      ghost var goal := ReadAll(stream, script, 0);
      ReadingIsFaithful(stream, script, 0);
      var i := 0;
      rc := GO_ON;
      while rc == GO_ON && bytesRead < LIMIT && i < |script|
        invariant Valid() && 0 <= i <= |script|
        invariant rc == GO_ON ==>
                    && bytesRead <= |stream| && buffer[..bytesRead] == stream[..bytesRead]
                    && overshoot == old(overshoot) && ReadAll(stream, script[i..], bytesRead) == goal
        invariant rc != GO_ON ==> rc == goal.rc && buffer[..goal.got] == stream[..goal.got]
        invariant rc == 0 ==> bytesRead == HeaderEnd(stream[..goal.got]) && overshoot == goal.got - bytesRead
        invariant rc != GO_ON && rc != 0 ==> bytesRead == goal.got && overshoot == old(overshoot)
        decreases |script| - i
      {
        assert script[i..][0] == script[i] && script[i..][1..] == script[i + 1..];
        rc := OneTurn(stream, script[i]);
        i := i + 1;
      }
      if rc == GO_ON {
        rc := if bytesRead < LIMIT then -2 else -3;
      }
    }
  }
}

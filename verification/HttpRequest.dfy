/**
  The request in memory: fixed arrays that the parser fills in place, and parse_http1 itself. The arrays hold
  at every byte what the state machine of HttpParse says, followed by zeros.
 */
module HttpRequest {
  import opened Text
  import opened Exchange
  import opened HttpParse
  import HeaderTable

  /** The token a header's key array holds while the parser is at `m`. */
  function KeyAt(m: Parser, i: nat): string {
    if i < |m.req.headers| then m.req.headers[i].key
    else if i > |m.req.headers| then ""
    else match m.phase
      case InValue => m.key
      case InKey => m.cur
      case InBody => m.cur
      case Done => m.cur
      case _ => ""
  }

  function ValueAt(m: Parser, i: nat): string {
    if i < |m.req.headers| then m.req.headers[i].value
    else if i == |m.req.headers| && m.phase == InValue then m.cur
    else ""
  }

  /** What the loop keeps besides the arrays: tokens fit, and the header index is in range while it is used. */
  predicate Fits(m: Parser) {
    && |m.cur| <= Limit(m.phase) && (m.phase in {InBody, Done} ==> |m.cur| <= 127)
    && (m.phase == InValue ==> |m.key| <= 127)
    && (forall h :: h in m.req.headers ==> |h.key| <= 127 && |h.value| <= 4095)
    && |m.req.headers| <= MAX_HEADERS && (m.phase in {InKey, InValue} ==> |m.req.headers| < MAX_HEADERS)
    && (m.phase in {InMethod, InUri, InVersion} ==> m.req.headers == [])
    && (m.phase == InMethod ==> m.req.uri == "") && (m.phase in {InMethod, InUri} ==> m.req.version == "")
  }

  class Http1Request {
    const verb: array<char>
    const uri: array<char>
    const version: array<char>
    const keys: array2<char>
    const values: array2<char>
    var headerCount: nat

    ghost predicate Valid() {
      && verb.Length == 16 && uri.Length == 4096 && version.Length == 16
      && keys.Length0 == MAX_HEADERS && keys.Length1 == 128
      && values.Length0 == MAX_HEADERS && values.Length1 == 4096
      && verb != uri && verb != version && uri != version && keys != values
    }

    static ghost predicate Holds(a: array<char>, s: string)
      reads a
    {
      |s| < a.Length && forall j :: 0 <= j < a.Length ==> a[j] == CharAt(s, j)
    }

    ghost predicate KeysHold(m: Parser)
      reads keys
      requires Valid()
    {
      forall i, j :: 0 <= i < MAX_HEADERS && 0 <= j < 128 ==> keys[i, j] == CharAt(KeyAt(m, i), j)
    }

    ghost predicate ValuesHold(m: Parser)
      reads values
      requires Valid()
    {
      forall i, j :: 0 <= i < MAX_HEADERS && 0 <= j < 4096 ==> values[i, j] == CharAt(ValueAt(m, i), j)
    }

    /** The arrays are those of the parser at `m`. */
    ghost predicate Represents(m: Parser)
      reads this, verb, uri, version, keys, values
      requires Valid()
    {
      && Fits(m) && headerCount == |m.req.headers|
      && Holds(verb, Fields(m).verb) && Holds(uri, Fields(m).uri) && Holds(version, Fields(m).version)
      && KeysHold(m) && ValuesHold(m)
    }

    /** A zeroed request, as calloc leaves it. */
    constructor ()
      ensures Valid() && fresh(verb) && fresh(uri) && fresh(version) && fresh(keys) && fresh(values)
      ensures Represents(START)
    {
      verb := new char[16](_ => '\0');
      uri := new char[4096](_ => '\0');
      version := new char[16](_ => '\0');
      keys := new char[MAX_HEADERS, 128]((_, _) => '\0');
      values := new char[MAX_HEADERS, 4096]((_, _) => '\0');
      headerCount := 0;
    }

    /** `dest[count] = c` for the phase's destination. */
    method Put(phase: Phase, count: nat, c: char)
      requires Valid() && phase !in {InBody, Done} && count <= Limit(phase)
      requires phase in {InKey, InValue} ==> headerCount < MAX_HEADERS
      modifies verb, uri, version, keys, values
      ensures phase == InMethod ==> verb[count] == c
      ensures forall j :: 0 <= j < 16 && !(phase == InMethod && j == count) ==> verb[j] == old(verb[j])
      ensures phase == InUri ==> uri[count] == c
      ensures forall j :: 0 <= j < 4096 && !(phase == InUri && j == count) ==> uri[j] == old(uri[j])
      ensures phase == InVersion ==> version[count] == c
      ensures forall j :: 0 <= j < 16 && !(phase == InVersion && j == count) ==> version[j] == old(version[j])
      ensures phase == InKey ==> keys[headerCount, count] == c
      ensures forall i, j ::
                0 <= i < MAX_HEADERS && 0 <= j < 128 && !(phase == InKey && i == headerCount && j == count)
                ==> keys[i, j] == old(keys[i, j])
      ensures phase == InValue ==> values[headerCount, count] == c
      ensures forall i, j ::
                0 <= i < MAX_HEADERS && 0 <= j < 4096 && !(phase == InValue && i == headerCount && j == count)
                ==> values[i, j] == old(values[i, j])
    {
      match phase
      case InMethod => verb[count] := c;
      case InUri => uri[count] := c;
      case InVersion => version[count] := c;
      case InKey => keys[headerCount, count] := c;
      case InValue => values[headerCount, count] := c;
    }

    /** A byte that belongs to the token: stored unless its array is full. */
    method Collect(phase: Phase, count: nat, c: char, ghost m: Parser) returns (count': nat)
      requires Valid() && Represents(m) && phase == m.phase && count == |m.cur| && phase !in {InBody, Done}
      modifies verb, uri, version, keys, values
      ensures var m' := m.(cur := Append(m.cur, c, Limit(m.phase)));
              Represents(m') && count' == |m'.cur|
    {
      if count < Limit(phase) {
        Put(phase, count, c);
        return count + 1;
      }
      return count;
    }

    /** The end of a token: its terminating zero. */
    method Terminate(phase: Phase, count: nat, ghost m: Parser)
      requires Valid() && Represents(m) && phase == m.phase && count == |m.cur| && phase !in {InBody, Done}
      modifies verb, uri, version, keys, values
      ensures Represents(m)
    {
      Put(phase, count, '\0');
    }

    /** The line end after a value: it is closed and its header counted. */
    method EndValue(count: nat, ghost m: Parser)
      requires Valid() && Represents(m) && m.phase == InValue && count == |m.cur|
      modifies verb, uri, version, keys, values, this`headerCount
      ensures Represents(Consume(m, '\n')) && headerCount == old(headerCount) + 1
    {
      Terminate(InValue, count, m);
      headerCount := headerCount + 1;
    }

    /** One turn of the parser's switch, the colon after a key apart. */
    method Byte(phase: Phase, count: nat, c: char, ghost m: Parser) returns (phase': Phase, count': nat)
      requires Valid() && Represents(m) && phase == m.phase && (phase !in {InBody, Done} ==> count == |m.cur|)
      requires phase != Done && !(phase == InKey && c == ':')
      modifies verb, uri, version, keys, values, this`headerCount
      ensures var m' := Consume(m, c);
              Represents(m') && phase' == m'.phase && (phase' !in {InBody, Done} ==> count' == |m'.cur|)
    {
      phase', count' := phase, count;
      match phase
      case InMethod =>
        if c == ' ' {
          Terminate(phase, count, m);
          phase', count' := InUri, 0;
        } else {
          count' := Collect(phase, count, c, m);
        }
      case InUri =>
        if c == ' ' {
          Terminate(phase, count, m);
          phase', count' := InVersion, 0;
        } else {
          count' := Collect(phase, count, c, m);
        }
      case InVersion =>
        if c == '\r' {
        } else if c == '\n' {
          Terminate(phase, count, m);
          phase', count' := InKey, 0;
        } else {
          count' := Collect(phase, count, c, m);
        }
      case InKey =>
        if c == '\r' {
        } else if c == '\n' {
          phase' := InBody;
        } else {
          count' := Collect(phase, count, c, m);
        }
      case InValue =>
        if c == '\r' {
        } else if c == '\n' {
          EndValue(count, m);
          phase', count' := if headerCount >= MAX_HEADERS then InBody else InKey, 0;
        } else {
          count' := Collect(phase, count, c, m);
        }
      case InBody => phase' := Done;
    }

    /** The spaces after a colon. */
    static method SkipAfterColon(buf: string, p: nat) returns (q: nat)
      requires p <= |buf|
      ensures p <= q <= |buf| && buf[q..] == SkipSpaces(buf[p..])
    {
      q := p;
      while q < |buf| && buf[q] == ' '
        invariant p <= q <= |buf| && SkipSpaces(buf[q..]) == SkipSpaces(buf[p..])
      {
        assert buf[q..][1..] == buf[q + 1..];
        q := q + 1;
      }
    }

    /** parse_http1 on the `|buf|` bytes of a header block, up to the return code. For every byte string it
        terminates, stays inside its arrays, and leaves in them exactly the fields of `Parse(buf)`, each
        followed by zeros to the end of its array. */
    method ParseHttp1(buf: string)
      requires Valid() && Represents(START)
      modifies verb, uri, version, keys, values, this`headerCount
      ensures Represents(Run(buf, START)) && Stores(Parse(buf))
    {
      var p, phase, count := 0, InMethod, 0;
      ghost var m := START;
      while p < |buf| && phase != Done
        invariant p <= |buf| && Represents(m) && phase == m.phase && (phase !in {InBody, Done} ==> count == |m.cur|)
        invariant Run(buf[p..], m) == Run(buf, START)
        decreases |buf| - p
      {
        var c := buf[p];
        assert buf[p..][0] == c && buf[p..][1..] == buf[p + 1..];
        if phase == InKey && c == ':' {
          EndKey(count, m);
          p := SkipAfterColon(buf, p + 1);
          m := AtColon(m);
          phase, count := InValue, 0;
        } else {
          phase, count := Byte(phase, count, c, m);
          m := Consume(m, c);
          p := p + 1;
        }
      }
      RepresentsFields(m);
    }

    /** The colon after a key: the key is closed and its value starts empty. */
    method EndKey(count: nat, ghost m: Parser)
      requires Valid() && Represents(m) && m.phase == InKey && count == |m.cur|
      modifies verb, uri, version, keys, values
      ensures Represents(AtColon(m))
    {
      Terminate(InKey, count, m);
    }

    /** The fields as the rest of the server reads them, every token followed by zeros. */
    ghost predicate Stores(r: Request)
      reads this, verb, uri, version, keys, values
      requires Valid()
    {
      && headerCount == |r.headers| <= MAX_HEADERS
      && (forall i :: 0 <= i < headerCount ==> |r.headers[i].key| < 128 && |r.headers[i].value| < 4096)
      && Holds(verb, r.verb) && Holds(uri, r.uri) && Holds(version, r.version)
      && (forall i, j :: 0 <= i < headerCount && 0 <= j < 128 ==> keys[i, j] == CharAt(r.headers[i].key, j))
      && (forall i, j :: 0 <= i < headerCount && 0 <= j < 4096 ==> values[i, j] == CharAt(r.headers[i].value, j))
      && (forall i :: 0 <= i < MAX_HEADERS ==> keys[i, 127] == '\0' && values[i, 4095] == '\0')
    }

    lemma RepresentsFields(m: Parser)
      requires Valid() && Represents(m)
      ensures Stores(Fields(m))
    {
      forall i | 0 <= i < MAX_HEADERS ensures |KeyAt(m, i)| <= 127 && |ValueAt(m, i)| <= 4095 {
        if i < |m.req.headers| {
          assert m.req.headers[i] in m.req.headers;
        }
      }
    }

    // ---- Reading the arrays as C strings

    static method TextOf(a: array<char>, ghost s: string) returns (t: string)
      requires Holds(a, s) && Lacks(s, ZERO)
      ensures t == s
    {
      t := "";
      var n := 0;
      while a[n] != '\0'
        invariant n <= |s| && t == s[..n]
        decreases |s| - n
      {
        t := t + [a[n]];
        n := n + 1;
      }
    }

    /** The stored request, as the later stages read it. */
    method Stored(ghost r: Request) returns (stored: Request)
      requires Valid() && Stores(r) && IsText(r)
      ensures stored == r
    {
      var theVerb := TextOf(verb, r.verb);
      var theUri := TextOf(uri, r.uri);
      var theVersion := TextOf(version, r.version);
      var headers: seq<Header> := [];
      for i := 0 to headerCount
        invariant headers == r.headers[..i]
      {
        var key := HeaderTable.TextOfSlot(keys, i, r.headers[i].key);
        var value := HeaderTable.TextOfSlot(values, i, r.headers[i].value);
        headers := headers + [Header(key, value)];
      }
      stored := Request(theVerb, theUri, theVersion, headers);
    }
  }
}

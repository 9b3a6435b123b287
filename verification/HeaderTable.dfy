/**
  The response's headers in memory: 64 slots of fixed-size keys and values that strncpy fills and strcasecmp
  reads.
 */
module HeaderTable {
  import opened Text
  import opened Exchange

  const HEADER_SLOTS := 64
  const KEY_SIZE := 128
  const VALUE_SIZE := 4096

  /** A C string that fits an array of `size` bytes with its terminating zero. */
  predicate Fits(s: string, size: nat) {
    |s| < size && forall j :: 0 <= j < |s| ==> s[j] != '\0'
  }

  /** The bytes of slot `i` are the string and zeros behind it. */
  ghost predicate SlotHolds(a: array2<char>, i: nat, s: string)
    requires i < a.Length0
    reads a
  {
    Fits(s, a.Length1) && forall j :: 0 <= j < a.Length1 ==> a[i, j] == CharAt(s, j)
  }

  /** strncpy(a[i], s, sizeof a[i]): the string, cut if need be, and zeros up to the end. */
  method StrNCpy(a: array2<char>, i: nat, s: string)
    requires i < a.Length0
    modifies a
    ensures forall j :: 0 <= j < a.Length1 ==> a[i, j] == CharAt(s, j)
    ensures forall h, j :: 0 <= h < a.Length0 && h != i && 0 <= j < a.Length1 ==> a[h, j] == old(a[h, j])
  {
    for j := 0 to a.Length1
      invariant forall p :: 0 <= p < j ==> a[i, p] == CharAt(s, p)
      invariant forall h, p :: 0 <= h < a.Length0 && h != i && 0 <= p < a.Length1 ==> a[h, p] == old(a[h, p])
    {
      a[i, j] := CharAt(s, j);
    }
  }

  lemma SameUpToEnd(s: string, t: string, n: nat)
    requires n <= |s| && n <= |t| && forall p :: 0 <= p < n ==> Lower(s[p]) == Lower(t[p])
    requires n < |s| && n < |t| ==> Lower(s[n]) != Lower(t[n])
    ensures SameIgnoringCase(s, t) <==> n == |s| == |t|
  {
    if n < |s| && n < |t| {
      assert LowerAll(s)[n] != LowerAll(t)[n];
    } else if |s| != |t| {
      assert |LowerAll(s)| != |LowerAll(t)|;
    }
  }

  /** strcasecmp(a[i], t) == 0 */
  method StrCaseEq(a: array2<char>, i: nat, ghost s: string, t: string) returns (same: bool)
    requires i < a.Length0 && SlotHolds(a, i, s) && Fits(t, a.Length1)
    ensures same == SameIgnoringCase(s, t)
  {
    var j := 0;
    while CharAt(t, j) != '\0' && Lower(a[i, j]) == Lower(CharAt(t, j))
      invariant j <= |s| && j <= |t| && forall p :: 0 <= p < j ==> Lower(s[p]) == Lower(t[p])
      decreases |t| - j
    {
      j := j + 1;
    }
    same := Lower(a[i, j]) == Lower(CharAt(t, j));
    SameUpToEnd(s, t, j);
  }

  /** Reading slot `i` as a C string. */
  method TextOfSlot(a: array2<char>, i: nat, ghost s: string) returns (t: string)
    requires i < a.Length0 && SlotHolds(a, i, s)
    ensures t == s
  {
    t := "";
    var n := 0;
    while a[i, n] != '\0'
      invariant n <= |s| && t == s[..n]
      decreases |s| - n
    {
      t := t + [a[i, n]];
      n := n + 1;
    }
  }

  class Table {
    const keys: array2<char>
    const values: array2<char>
    var count: nat
    ghost var headers: seq<Header>   // what the slots hold

    ghost predicate Valid()
      reads this, keys, values
    {
      && keys.Length0 == values.Length0 == HEADER_SLOTS && keys.Length1 == KEY_SIZE && values.Length1 == VALUE_SIZE
      && keys != values && count == |headers| <= HEADER_SLOTS
      && forall i :: 0 <= i < count ==>
           SlotHolds(keys, i, headers[i].key) && SlotHolds(values, i, headers[i].value)
    }

    constructor ()
      ensures Valid() && fresh(keys) && fresh(values) && headers == []
    {
      keys := new char[HEADER_SLOTS, KEY_SIZE]((_, _) => '\0');
      values := new char[HEADER_SLOTS, VALUE_SIZE]((_, _) => '\0');
      count, headers := 0, [];
    }

    /** resp_add_header */
    method Add(name: string, value: string)
      requires Valid() && count < HEADER_SLOTS && Fits(name, KEY_SIZE) && Fits(value, VALUE_SIZE)
      modifies this, keys, values
      ensures Valid() && headers == old(headers) + [Header(name, value)]
    {
      StrNCpy(keys, count, name);
      StrNCpy(values, count, value);
      count := count + 1;
      headers := headers + [Header(name, value)];
    }

    /** The search of should_keep_alive for a `Connection: close`. */
    method HasClose() returns (found: bool)
      requires Valid()
      ensures found == ServerCloses(headers)
    {
      for i := 0 to count
        invariant forall j :: 0 <= j < i ==> !SaysClose(headers[j])
      {
        var named := StrCaseEq(keys, i, headers[i].key, "Connection");
        if named {
          var closes := StrCaseEq(values, i, headers[i].value, "close");
          if closes {
            assert SaysClose(headers[i]);
            return true;
          }
        }
      }
      return false;
    }

    /** The headers as `%s` prints them. */
    method Stored() returns (stored: seq<Header>)
      requires Valid()
      ensures stored == headers
    {
      stored := [];
      for i := 0 to count
        invariant stored == headers[..i]
      {
        var key := TextOfSlot(keys, i, headers[i].key);
        var value := TextOfSlot(values, i, headers[i].value);
        stored := stored + [Header(key, value)];
      }
    }
  }
}

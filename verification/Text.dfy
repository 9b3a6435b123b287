/** C strings as Dafny strings: the comparisons and searches of <string.h> that the server uses. */
module Text {
  function Lower(c: char): char {
    if 'A' <= c <= 'Z' then c - 'A' + 'a' else c
  }

  function LowerAll(s: string): string {
    seq(|s|, i requires 0 <= i < |s| => Lower(s[i]))
  }

  /** strcasecmp(a, b) == 0 in the C locale. */
  predicate SameIgnoringCase(a: string, b: string) {
    LowerAll(a) == LowerAll(b)
  }

  /** The same letter, as it is or in the other case. */
  predicate SameLetter(c: char, d: char) {
    || c == d
    || ('A' <= c <= 'Z' && d as int == c as int + 32)
    || ('A' <= d <= 'Z' && c as int == d as int + 32)
  }

  /** Case is folded, and only the case of the 26 letters. */
  lemma SameIgnoringCaseIff(a: string, b: string)
    ensures SameIgnoringCase(a, b) <==> |a| == |b| && forall i :: 0 <= i < |a| ==> SameLetter(a[i], b[i])
  {
    if SameIgnoringCase(a, b) {
      assert |a| == |LowerAll(a)| == |LowerAll(b)| == |b|;
      forall i | 0 <= i < |a| ensures SameLetter(a[i], b[i]) {
        assert Lower(a[i]) == LowerAll(a)[i] == LowerAll(b)[i] == Lower(b[i]);
      }
    }
  }

  predicate At(s: string, i: nat, t: string) {
    i + |t| <= |s| && s[i..i + |t|] == t
  }

  /** strstr(s, t) != NULL. */
  predicate Contains(s: string, t: string) {
    exists i | 0 <= i <= |s| :: At(s, i, t)
  }

  /** The byte at `j` of a string kept in an array of zeros. */
  function CharAt(s: string, j: nat): char {
    if j < |s| then s[j] else '\0'
  }

  lemma Regroup<T>(a: seq<T>, b: seq<T>, c: seq<T>)
    ensures a + b + c == a + (b + c)
  {
  }
}

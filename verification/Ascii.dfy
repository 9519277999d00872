/** Lower and upper case of ASCII text. */
module Ascii {
  function LowerChar(c: char): char {
    if 'A' <= c <= 'Z' then c + 32 as char else c
  }

  function UpperChar(c: char): char {
    if 'a' <= c <= 'z' then c - 32 as char else c
  }

  function Lower(s: string): string {
    seq(|s|, i requires 0 <= i < |s| => LowerChar(s[i]))
  }

  function Upper(s: string): string {
    seq(|s|, i requires 0 <= i < |s| => UpperChar(s[i]))
  }

  /** The same letter, in either case. */
  predicate CasePair(small: char, big: char) {
    'a' <= small <= 'z' && small as int == big as int + 32
  }

  predicate SameButCase(a: string, b: string) {
    |a| == |b| && forall i | 0 <= i < |a| :: a[i] == b[i] || CasePair(a[i], b[i]) || CasePair(b[i], a[i])
  }

  lemma LowerSame(a: string, b: string)
    ensures Lower(a) == Lower(b) <==> SameButCase(a, b)
  {
    if Lower(a) == Lower(b) {
      assert |a| == |Lower(a)| == |b|;
      forall i | 0 <= i < |a| ensures a[i] == b[i] || CasePair(a[i], b[i]) || CasePair(b[i], a[i]) {
        assert Lower(a)[i] == Lower(b)[i];
      }
    }
  }

  /** Upper case has the same letters, and no small ones. */
  lemma UpperIs(s: string)
    ensures SameButCase(s, Upper(s)) && forall i | 0 <= i < |s| :: !('a' <= Upper(s)[i] <= 'z')
  {
  }
}

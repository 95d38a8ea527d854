/** The order in which sequences of texts are sorted. */
module Lexicographic {

  predicate CharsLess(a: string, b: string) {
    b != "" && (a == "" || a[0] < b[0] || (a[0] == b[0] && CharsLess(a[1..], b[1..])))
  }

  lemma {:induction false} CharsIrreflexive(a: string)
    ensures !CharsLess(a, a)
  {
    if a != "" { CharsIrreflexive(a[1..]); }
  }

  lemma {:induction false} CharsTotal(a: string, b: string)
    ensures a != b ==> CharsLess(a, b) != CharsLess(b, a)
  {
    if a != "" && b != "" {
      CharsTotal(a[1..], b[1..]);
      assert a == [a[0]] + a[1..] && b == [b[0]] + b[1..];
    }
  }

  lemma {:induction false} CharsTransitive(a: string, b: string, c: string)
    requires CharsLess(a, b) && CharsLess(b, c)
    ensures CharsLess(a, c)
  {
    if a != "" && a[0] == b[0] && b[0] == c[0] { CharsTransitive(a[1..], b[1..], c[1..]); }
  }

  predicate Less(a: seq<string>, b: seq<string>) {
    b != [] && (a == [] || CharsLess(a[0], b[0]) || (a[0] == b[0] && Less(a[1..], b[1..])))
  }

  lemma {:induction false} Irreflexive(a: seq<string>)
    ensures !Less(a, a)
  {
    if a != [] {
      CharsIrreflexive(a[0]);
      Irreflexive(a[1..]);
    }
  }

  lemma {:induction false} Total(a: seq<string>, b: seq<string>)
    ensures a != b ==> Less(a, b) != Less(b, a)
  {
    if a != [] && b != [] {
      Total(a[1..], b[1..]);
      CharsTotal(a[0], b[0]);
      CharsIrreflexive(a[0]);
      assert a == [a[0]] + a[1..] && b == [b[0]] + b[1..];
    }
  }

  lemma {:induction false} Transitive(a: seq<string>, b: seq<string>, c: seq<string>)
    requires Less(a, b) && Less(b, c)
    ensures Less(a, c)
  {
    if a != [] {
      CharsIrreflexive(b[0]);
      if a[0] == b[0] && b[0] == c[0] {
        Transitive(a[1..], b[1..], c[1..]);
      } else if a[0] != b[0] && b[0] != c[0] {
        CharsTransitive(a[0], b[0], c[0]);
      }
    }
  }

  /** A path comes before the paths below it. */
  lemma {:induction false} PrefixFirst(a: seq<string>, b: seq<string>)
    requires a <= b && a != b
    ensures Less(a, b)
  {
    if a != [] { PrefixFirst(a[1..], b[1..]); }
  }
}

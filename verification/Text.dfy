/** Searching in text. */
module Text {
  import opened Wrappers

  predicate At(s: string, p: string, i: nat) {
    i + |p| <= |s| && s[i..i + |p|] == p
  }

  predicate EndsWith(s: string, p: string) {
    |p| <= |s| && s[|s| - |p|..] == p
  }

  /** The first place from `i` on where `p` occurs. */
  function FindFrom(s: string, p: string, i: nat): (r: Option<nat>)
    ensures r.Some? ==> i <= r.value && At(s, p, r.value)
    ensures forall j | i <= j && At(s, p, j) :: r.Some? && r.value <= j
    decreases |s| - i
  {
    if i + |p| > |s| then None
    else if s[i..i + |p|] == p then Some(i)
    else FindFrom(s, p, i + 1)
  }

  predicate Occurs(s: string, p: string) {
    FindFrom(s, p, 0).Some?
  }

  lemma FindIs(s: string, p: string, i: nat, k: nat)
    requires i <= k && At(s, p, k) && forall j | i <= j < k :: !At(s, p, j)
    ensures FindFrom(s, p, i) == Some(k)
  {}

  lemma AtPrefix(a: string, b: string, p: string, i: nat)
    requires i + |p| <= |a|
    ensures At(a + b, p, i) <==> At(a, p, i)
  {
    assert (a + b)[i..i + |p|] == a[i..i + |p|];
  }

  lemma AtSuffix(a: string, b: string, p: string, i: nat)
    requires |a| <= i
    ensures At(a + b, p, i) <==> At(b, p, i - |a|)
  {
    if i + |p| <= |a| + |b| {
      assert (a + b)[i..i + |p|] == b[i - |a|..i - |a| + |p|];
    }
  }

  /** What a found pattern says about single characters. */
  lemma AtChar(s: string, p: string, i: nat, k: nat)
    requires At(s, p, i) && k < |p|
    ensures s[i + k] == p[k]
  {
    assert s[i..i + |p|][k] == s[i + k];
  }

  lemma LastChar(s: string, p: string)
    requires p != "" && EndsWith(s, p)
    ensures s[|s| - 1] == p[|p| - 1]
  {
    assert s[|s| - |p|..][|p| - 1] == s[|s| - 1];
  }

  predicate Without(s: string, c: char) {
    forall i | 0 <= i < |s| :: s[i] != c
  }

  lemma FindsNewline(a: string, line: string, rest: string)
    requires Without(line, '\n')
    ensures FindFrom(a + line + "\n" + rest, "\n", |a|) == Some(|a| + |line|)
  {
    var s := a + line + "\n" + rest;
    assert s[|a| + |line|..|a| + |line| + 1] == "\n";
    forall j | |a| <= j < |a| + |line| ensures !At(s, "\n", j) {
      assert s[j] == line[j - |a|];
      if At(s, "\n", j) { AtChar(s, "\n", j, 0); }
    }
    FindIs(s, "\n", |a|, |a| + |line|);
  }
}

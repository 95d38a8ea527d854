/** Characters, words and lines of the chat log. */
module ChatText {
  import opened Wrappers
  import opened Text
  import opened Decimal

  predicate IsSpace(c: char) {
    c == ' ' || '\t' <= c <= '\r' || '\U{1C}' <= c <= '\U{1F}'
  }

  predicate IsLower(c: char) {
    'a' <= c <= 'z'
  }

  predicate IsAlnum(c: char) {
    IsLower(c) || 'A' <= c <= 'Z' || IsDigit(c)
  }

  function TrimLeft(s: string): string {
    if s != "" && IsSpace(s[0]) then TrimLeft(s[1..]) else s
  }

  function TrimRight(s: string): string {
    if s != "" && IsSpace(s[|s| - 1]) then TrimRight(s[..|s| - 1]) else s
  }

  function Trim(s: string): string {
    TrimRight(TrimLeft(s))
  }

  /** Trimming takes the blanks away at both ends, and nothing else. */
  lemma TrimIs(s: string) returns (from: nat, upto: nat)
    ensures from <= upto <= |s| && Trim(s) == s[from..upto]
    ensures forall i | 0 <= i < |s| && !(from <= i < upto) :: IsSpace(s[i])
    ensures from < upto ==> !IsSpace(s[from]) && !IsSpace(s[upto - 1])
  {
    from := TrimsLeft(s);
    var kept := TrimsRight(TrimLeft(s));
    upto := from + kept;
    assert forall i | upto <= i < |s| :: s[i] == s[from..][i - from];
  }

  lemma {:induction false} TrimsLeft(s: string) returns (from: nat)
    ensures from <= |s| && TrimLeft(s) == s[from..] && (from < |s| ==> !IsSpace(s[from]))
    ensures forall i | 0 <= i < from :: IsSpace(s[i])
  {
    if s != "" && IsSpace(s[0]) {
      from := TrimsLeft(s[1..]);
      from := from + 1;
      assert forall i | 0 < i < from :: s[i] == s[1..][i - 1];
    } else {
      from := 0;
    }
  }

  lemma {:induction false} TrimsRight(s: string) returns (upto: nat)
    ensures upto <= |s| && TrimRight(s) == s[..upto] && (upto > 0 ==> !IsSpace(s[upto - 1]))
    ensures forall i | upto <= i < |s| :: IsSpace(s[i])
  {
    if s != "" && IsSpace(s[|s| - 1]) {
      upto := TrimsRight(s[..|s| - 1]);
    } else {
      upto := |s|;
    }
  }

  /** The first place from `i` on with this character. */
  function IndexOf(s: string, c: char, i: nat): (r: Option<nat>)
    ensures r.Some? ==> i <= r.value < |s| && s[r.value] == c
    decreases |s| - i
  {
    if i >= |s| then None else if s[i] == c then Some(i) else IndexOf(s, c, i + 1)
  }

  lemma {:induction false} IndexIs(s: string, c: char, i: nat, k: nat)
    requires i <= k < |s| && s[k] == c && forall j | i <= j < k :: s[j] != c
    ensures IndexOf(s, c, i) == Some(k)
    decreases k - i
  {
    if i < k { IndexIs(s, c, i + 1, k); }
  }

  lemma {:induction false} IndexNone(s: string, c: char, i: nat)
    requires forall j | i <= j < |s| :: s[j] != c
    ensures IndexOf(s, c, i) == None
    decreases |s| - i
  {
    if i < |s| { IndexNone(s, c, i + 1); }
  }

  /** The pieces between the occurrences of a character. */
  function SplitOn(s: string, c: char): (r: seq<string>)
    ensures r != []
    decreases |s|
  {
    var at := IndexOf(s, c, 0);
    if at.None? then [s] else [s[..at.value]] + SplitOn(s[at.value + 1..], c)
  }

  lemma SplitFirst(a: string, c: char, b: string)
    requires Without(a, c)
    ensures SplitOn(a + [c] + b, c) == [a] + SplitOn(b, c)
  {
    var s := a + [c] + b;
    assert forall j | 0 <= j < |a| :: s[j] == a[j];
    IndexIs(s, c, 0, |a|);
    assert s[..|a|] == a && s[|a| + 1..] == b;
  }

  lemma SplitNone(a: string, c: char)
    requires Without(a, c)
    ensures SplitOn(a, c) == [a]
  {
    IndexNone(a, c, 0);
  }

  // ---- markers ----

  predicate IsNumber(s: string) {
    s != "" && AllDigits(s)
  }

  predicate IsSlug(s: string) {
    s != "" && IsLower(s[0]) && forall i | 0 <= i < |s| :: IsLower(s[i]) || IsDigit(s[i]) || s[i] == '-'
  }

  /** M7, G3:1, T3:done or S:discover. */
  predicate IsMarker(m: string) {
    || (m != "" && m[0] == 'M' && IsNumber(m[1..]))
    || (m != "" && (m[0] == 'G' || m[0] == 'T') && IndexOf(m, ':', 1).Some?
        && var k := IndexOf(m, ':', 1).value;
           IsNumber(m[1..k]) && if m[0] == 'G' then IsNumber(m[k + 1..]) else IsSlug(m[k + 1..]))
    || (2 <= |m| && m[0] == 'S' && m[1] == ':' && IsSlug(m[2..]))
  }

  predicate MarkerChar(c: char) {
    IsAlnum(c) || c == ':' || c == '-'
  }

  lemma MarkerChars(m: string)
    requires IsMarker(m)
    ensures m != "" && forall i | 0 <= i < |m| :: MarkerChar(m[i])
  {
    forall i | 0 <= i < |m| ensures MarkerChar(m[i]) {
      if m[0] == 'M' {
        if i > 0 { assert m[i] == m[1..][i - 1]; }
      } else if m[0] == 'S' {
        if i > 1 { assert m[i] == m[2..][i - 2]; }
      } else {
        var k := IndexOf(m, ':', 1).value;
        if 0 < i < k { assert m[i] == m[1..k][i - 1]; }
        if k < i { assert m[i] == m[k + 1..][i - k - 1]; }
      }
    }
  }

  /** A line that starts like an entry: with a marker, or with the time stamp of the oldest entries. */
  predicate IsTagged(line: string) {
    "**[" <= line
    && var k := IndexOf(line, ']', 3);
       k.Some? && At(line, "]**", k.value)
       && (IsMarker(line[3..k.value]) || (EndsWith(line[3..k.value], " UTC") && Without(line[3..k.value], '\r')))
  }

  // ---- lines ----

  predicate IsLine(s: string) {
    Without(s, '\n') && Without(s, '\r')
  }

  predicate AreLines(ls: seq<string>) {
    forall i | 0 <= i < |ls| :: IsLine(ls[i])
  }

  function DropBlankFront(ls: seq<string>): seq<string> {
    if ls != [] && TrimLeft(ls[0]) == "" then DropBlankFront(ls[1..]) else ls
  }

  function DropBlankBack(ls: seq<string>): seq<string> {
    if ls != [] && TrimLeft(ls[|ls| - 1]) == "" then DropBlankBack(ls[..|ls| - 1]) else ls
  }

  /** Trimming a text that is given by its lines; the empty text has no lines. */
  function StripLines(ls: seq<string>): seq<string> {
    var a := DropBlankBack(DropBlankFront(ls));
    if a == [] then []
    else
      var b := a[0 := TrimLeft(a[0])];
      b[|b| - 1 := TrimRight(b[|b| - 1])]
  }

  /** Nothing to trim: the text starts and ends with a visible character. */
  predicate Trimmed(ls: seq<string>) {
    ls != []
    && ls[0] != "" && !IsSpace(ls[0][0])
    && var last := ls[|ls| - 1]; last != "" && !IsSpace(last[|last| - 1])
  }

  lemma VisibleStays(s: string)
    requires s != "" && !IsSpace(s[0])
    ensures TrimLeft(s) == s
  {}

  lemma {:induction false} EndVisible(s: string)
    requires s != "" && !IsSpace(s[|s| - 1])
    ensures TrimLeft(s) != "" && TrimRight(s) == s
  {
    if IsSpace(s[0]) {
      EndVisible(s[1..]);
    }
  }

  /** Trimming gives back a trimmed text from between blank lines. */
  lemma StripsBetween(front: seq<string>, ls: seq<string>, back: seq<string>)
    requires Trimmed(ls)
    requires (forall i | 0 <= i < |front| :: front[i] == "") && (forall i | 0 <= i < |back| :: back[i] == "")
    ensures StripLines(front + ls + back) == ls
  {
    BlankFront(front, ls + back);
    assert front + ls + back == front + (ls + back);
    VisibleStays(ls[0]);
    EndVisible(ls[|ls| - 1]);
    assert (ls + back)[0] == ls[0];
    BlankBack(ls, back);
    assert ls[0 := TrimLeft(ls[0])] == ls;
    assert ls[|ls| - 1 := TrimRight(ls[|ls| - 1])] == ls;
  }

  lemma {:induction false} BlankFront(front: seq<string>, rest: seq<string>)
    requires (forall i | 0 <= i < |front| :: front[i] == "")
    ensures DropBlankFront(front + rest) == DropBlankFront(rest)
  {
    if front == [] {
      assert front + rest == rest;
    } else {
      assert (front + rest)[0] == front[0] && (front + rest)[1..] == front[1..] + rest;
      BlankFront(front[1..], rest);
    }
  }

  lemma {:induction false} BlankBack(ls: seq<string>, back: seq<string>)
    requires ls != [] && TrimLeft(ls[|ls| - 1]) != "" && (forall i | 0 <= i < |back| :: back[i] == "")
    ensures DropBlankBack(ls + back) == ls
  {
    var all := ls + back;
    if back == [] {
      assert all == ls;
    } else {
      assert all[|all| - 1] == back[|back| - 1];
      assert all[..|all| - 1] == ls + back[..|back| - 1];
      BlankBack(ls, back[..|back| - 1]);
    }
  }
}

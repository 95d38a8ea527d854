/**
 Numbering the oldest entries of a log, those that have only a time stamp: what it gives, what it does to a text that
 is put together, and which bodies it takes for old entries.
 */
module ChatOldEntries {
  import opened Wrappers
  import opened Text
  import opened ChatText
  import opened ChatHeader
  import opened ChatLog
  import opened Decimal

  // ---- numbers in a text ----

  lemma NumberedIsMarker(n: nat)
    ensures IsMarker(Numbered(n)) && "M" <= Numbered(n) && NumberIn(Numbered(n)) == n && IsNumber(Padded(n, 3))
  {
    assert Numbered(n)[1..] == Padded(n, 3) && Numbered(n)[..1] == "M";
    ValueOfPadded(n, 3);
  }

  lemma {:induction false} HighestConcat(a: seq<string>, b: seq<string>)
    ensures HighestMid(a + b) == Max(HighestMid(a), HighestMid(b))
  {
    if b == [] {
      assert a + b == a;
    } else {
      assert (a + b)[..|a + b| - 1] == a + b[..|b| - 1];
      HighestConcat(a, b[..|b| - 1]);
    }
  }

  lemma {:induction false} HighestOf(lines: seq<string>, i: nat)
    requires i < |lines|
    ensures forall n | n in Mids(lines[i], 0) :: n <= HighestMid(lines)
  {
    if i < |lines| - 1 {
      HighestOf(lines[..|lines| - 1], i);
    } else {
      forall n | n in Mids(lines[i], 0) ensures n <= Largest(Mids(lines[i], 0)) { LargestBounds(Mids(lines[i], 0), n); }
    }
  }

  lemma FirstMid(line: string)
    requires MidAt(line, 0).Some?
    ensures MidAt(line, 0).value.0 in Mids(line, 0)
  {
    var (n, end) := MidAt(line, 0).value;
    assert |line| > 0;
    assert Mids(line, 0) == [n] + Mids(line, end);
  }

  // ---- what numbering gives ----

  ghost predicate HasMid(lines: seq<string>) {
    exists i | 0 <= i < |lines| :: MidAt(lines[i], 0).Some?
  }

  ghost predicate NoOld(lines: seq<string>) {
    lines == [] || (Span(lines).None? && NoOld(lines[1..]))
  }

  ghost predicate Settled(lines: seq<string>) {
    HasMid(lines) || NoOld(lines)
  }

  lemma {:induction false} NumberOldIdle(lines: seq<string>, n: nat)
    requires NoOld(lines)
    ensures NumberOld(lines, n) == (lines, n)
  {
    hide Span;
    if lines != [] {
      NumberOldIdle(lines[1..], n);
      assert [lines[0]] + lines[1..] == lines;
    }
  }

  lemma SettledStays(lines: seq<string>)
    requires Settled(lines)
    ensures Migrate(lines).0 == lines && Migrate(lines).1 <= HighestMid(lines)
  {
    if !HasMid(lines) { NumberOldIdle(lines, 0); }
  }

  lemma StartsNumbered(n: nat, rest: string)
    ensures MidAt("**[" + Numbered(n) + "]**" + rest, 0).Some?
            && MidAt("**[" + Numbered(n) + "]**" + rest, 0).value.0 == n
  {
    NumberedIsMarker(n);
    ValueOfPadded(n, 3);
    MidOfTag(Padded(n, 3), rest);
    assert "**[" + Numbered(n) + "]**" + rest == "**[M" + Padded(n, 3) + "]**" + rest;
  }

  lemma FirstOfSpan(n: nat, lines: seq<string>) returns (rest: string)
    requires Span(lines).Some?
    ensures |NumberedSpan(n, lines)| == Span(lines).value + 1
    ensures NumberedSpan(n, lines)[0] == "**[" + Numbered(n) + "]**" + rest
  {
    hide Numbered, MidAt, HighestMid;
    if Span(lines).value == 0 {
      var stamp := OldStamp(lines[0]).value;
      rest := " [" + stamp + "]" + lines[0][3 + |stamp| + 3..];
    } else {
      rest := " [" + lines[0][3..];
    }
  }

  lemma SpanIsNumbered(n: nat, lines: seq<string>)
    requires Span(lines).Some?
    ensures |NumberedSpan(n, lines)| == Span(lines).value + 1
    ensures HasMid(NumberedSpan(n, lines)) && HighestMid(NumberedSpan(n, lines)) >= n
  {
    hide NumberedSpan, Numbered, MidAt, HighestMid, Mids, Span;
    var r := NumberedSpan(n, lines);
    var rest := FirstOfSpan(n, lines);
    StartsNumbered(n, rest);
    FirstMid(r[0]);
    HighestOf(r, 0);
  }

  lemma MidAmong(a: seq<string>, b: seq<string>)
    ensures HasMid(a + b) <==> HasMid(a) || HasMid(b)
  {
    if HasMid(a) { var i :| 0 <= i < |a| && MidAt(a[i], 0).Some?; assert (a + b)[i] == a[i]; }
    if HasMid(b) { var i :| 0 <= i < |b| && MidAt(b[i], 0).Some?; assert (a + b)[|a| + i] == b[i]; }
  }

  /** Either there is nothing to number, or the last number given is in the text. */
  lemma {:induction false} NumberOldNumbers(lines: seq<string>, n: nat)
    ensures var (r, m) := NumberOld(lines, n);
            && |r| == |lines| && n <= m
            && (m == n <==> NoOld(lines)) && (m == n ==> r == lines)
            && (m > n ==> HasMid(r) && m <= HighestMid(r))
    decreases |lines|
  {
    hide MidAt, NumberedSpan, HighestMid, Span;
    if lines != [] {
      var (r, m) := NumberOld(lines, n);
      if Span(lines).None? {
        NumberOldNumbers(lines[1..], n);
        var rest := NumberOld(lines[1..], n).0;
        MidAmong([lines[0]], rest);
        HighestConcat([lines[0]], rest);
      } else {
        var k := Span(lines).value;
        NumberOldNumbers(lines[k + 1..], n + 1);
        SpanIsNumbered(n + 1, lines);
        MidAmong(NumberedSpan(n + 1, lines), NumberOld(lines[k + 1..], n + 1).0);
        HighestConcat(NumberedSpan(n + 1, lines), NumberOld(lines[k + 1..], n + 1).0);
      }
    }
  }

  lemma MigrateSettles(lines: seq<string>)
    ensures Settled(Migrate(lines).0) && Migrate(lines).1 <= HighestMid(Migrate(lines).0)
  {
    if !HasMid(lines) { NumberOldNumbers(lines, 0); }
  }

  // ---- texts that are put together ----

  /** No stamp that starts before these lines ends in them. */
  predicate Sealed(lines: seq<string>) {
    var k := NextBracket(lines);
    k < |lines| ==> !ClosesStamp(lines[k])
  }

  lemma {:induction false} NextBracketConcat(a: seq<string>, b: seq<string>)
    ensures NextBracket(a + b) == if NextBracket(a) < |a| then NextBracket(a) else |a| + NextBracket(b)
  {
    if a == [] {
      assert a + b == b;
    } else {
      assert (a + b)[1..] == a[1..] + b;
      NextBracketConcat(a[1..], b);
    }
  }

  lemma SpanConcat(a: seq<string>, b: seq<string>)
    requires a != [] && Sealed(b)
    ensures Span(a + b) == Span(a)
  {
    assert (a + b)[1..] == a[1..] + b;
    NextBracketConcat(a[1..], b);
  }

  lemma SameSpan(a: seq<string>, b: seq<string>, n: nat)
    requires a != [] && Sealed(b) && Span(a).Some?
    ensures Span(a + b) == Span(a) && NumberedSpan(n, a + b) == NumberedSpan(n, a)
  {
    SpanConcat(a, b);
    hide Span, Unclosed, NumberedLine, Numbered, OldStamp, Sealed;
    var k := Span(a).value;
    assert (a + b)[k] == a[k] && (a + b)[0] == a[0];
    if k > 0 { assert (a + b)[1..k] == a[1..k]; }
  }

  lemma {:induction false} NumberOldConcat(a: seq<string>, b: seq<string>, n: nat)
    requires Sealed(b)
    ensures var (x, m) := NumberOld(a, n);
            var (y, p) := NumberOld(b, m);
            NumberOld(a + b, n) == (x + y, p)
    decreases |a|
  {
    hide Sealed, Span, NumberedSpan;
    if a == [] {
      assert a + b == b && a + NumberOld(b, n).0 == NumberOld(b, n).0;
    } else {
      SpanConcat(a, b);
      if Span(a).None? {
        assert (a + b)[1..] == a[1..] + b;
        NumberOldConcat(a[1..], b, n);
        var (x, m) := NumberOld(a[1..], n);
        assert [a[0]] + (x + NumberOld(b, m).0) == ([a[0]] + x) + NumberOld(b, m).0;
      } else {
        var k := Span(a).value;
        SameSpan(a, b, n + 1);
        assert (a + b)[k + 1..] == a[k + 1..] + b;
        NumberOldConcat(a[k + 1..], b, n + 1);
        var (x, m) := NumberOld(a[k + 1..], n + 1);
        assert NumberedSpan(n + 1, a) + (x + NumberOld(b, m).0) == (NumberedSpan(n + 1, a) + x) + NumberOld(b, m).0;
      }
    }
  }

  predicate Starts(line: string) {
    OldStamp(line).Some? || OpensStamp(line)
  }

  lemma StartsNone(lines: seq<string>)
    requires lines != [] && !Starts(lines[0])
    ensures Span(lines).None?
  {}

  /** Lines in which no stamp starts are left alone. */
  lemma {:induction false} NothingStarts(a: seq<string>, b: seq<string>, n: nat)
    requires forall i | 0 <= i < |a| :: !Starts(a[i])
    ensures NumberOld(a + b, n) == (a + NumberOld(b, n).0, NumberOld(b, n).1)
  {
    hide Span, Starts, NumberedSpan;
    if a == [] {
      assert a + b == b && a + NumberOld(b, n).0 == NumberOld(b, n).0;
    } else {
      assert (a + b)[1..] == a[1..] + b && (a + b)[0] == a[0];
      StartsNone(a + b);
      NothingStarts(a[1..], b, n);
      assert [a[0]] + (a[1..] + NumberOld(b, n).0) == a + NumberOld(b, n).0;
    }
  }

  // ---- bodies that look like an old entry ----

  /**
   A stamp that runs over several lines: one line opens it, the first bracket after it closes it.  Escaping looks at
   single lines, so it does not see such a stamp.
   */
  predicate HidesStampAt(body: seq<string>, i: nat, j: nat) {
    i < j < |body| && OpensStamp(body[i]) && ClosesStamp(body[j])
    && forall k | i < k < j :: IndexOf(body[k], ']', 0).None?
  }

  predicate HidesStamp(body: seq<string>) {
    exists i, j | 0 <= i < j < |body| :: HidesStampAt(body, i, j)
  }

  lemma {:induction false} IndexShifts(line: string, c: char, d: char, i: nat)
    requires c != d && i <= |line|
    ensures IndexOf([d] + line, c, i + 1) == match IndexOf(line, c, i) case None => None case Some(k) => Some(k + 1)
    decreases |line| - i
  {
    if i < |line| && line[i] != c { IndexShifts(line, c, d, i + 1); }
  }

  lemma EncodedStarts(line: string)
    ensures OpensStamp(EncodeLine(line)) <==> OpensStamp(line)
  {}

  lemma ShiftedCloses(line: string)
    ensures ClosesStamp("\\" + line) <==> ClosesStamp(line)
    ensures IndexOf("\\" + line, ']', 0).None? <==> IndexOf(line, ']', 0).None?
  {
    var e := "\\" + line;
    assert e == ['\\'] + line;
    IndexShifts(line, ']', '\\', 0);
    assert IndexOf(e, ']', 0) == IndexOf(e, ']', 1);
    var k := IndexOf(line, ']', 0);
    if k.Some? {
      assert e[..k.value + 1] == "\\" + line[..k.value];
      ShiftedEnd(line[..k.value]);
      AtSuffix("\\", line, "]**", k.value + 1);
    }
  }

  lemma EncodedCloses(line: string)
    ensures ClosesStamp(EncodeLine(line)) <==> ClosesStamp(line)
    ensures IndexOf(EncodeLine(line), ']', 0).None? <==> IndexOf(line, ']', 0).None?
  {
    hide ClosesStamp, IsTagged, IndexOf;
    ShiftedCloses(line);
  }

  lemma ShiftedEnd(s: string)
    ensures EndsWith("\\" + s, " UTC") <==> EndsWith(s, " UTC")
  {
    var t := "\\" + s;
    if |s| >= 4 {
      assert t[|t| - 4..] == s[|s| - 4..];
    } else if |s| == 3 {
      assert t[0..][0] == '\\';
    }
  }

  lemma {:induction false} BracketIs(lines: seq<string>, j: nat)
    requires j <= |lines| && (forall k | 0 <= k < j :: IndexOf(lines[k], ']', 0).None?)
    requires j < |lines| ==> IndexOf(lines[j], ']', 0).Some?
    ensures NextBracket(lines) == j
  {
    if j > 0 { BracketIs(lines[1..], j - 1); }
  }

  lemma {:induction false} BeforeBracket(lines: seq<string>, k: nat)
    requires k < NextBracket(lines)
    ensures IndexOf(lines[k], ']', 0).None?
  {
    if k > 0 { BeforeBracket(lines[1..], k - 1); }
  }

  lemma {:induction false} NoOldAt(lines: seq<string>, i: nat)
    requires NoOld(lines) && i < |lines|
    ensures Span(lines[i..]).None?
  {
    if i == 0 {
      assert lines[0..] == lines;
    } else {
      NoOldAt(lines[1..], i - 1);
      assert lines[1..][i - 1..] == lines[i..];
    }
  }

  lemma {:induction false} OldAt(lines: seq<string>) returns (i: nat)
    requires !NoOld(lines)
    ensures i < |lines| && Span(lines[i..]).Some?
  {
    if Span(lines).Some? {
      i := 0;
      assert lines[0..] == lines;
    } else {
      i := OldAt(lines[1..]);
      i := i + 1;
      assert lines[1..][i - 1..] == lines[i..];
    }
  }

  lemma SpanFrom(body: seq<string>, i: nat)
    requires i < |body| && OldStamp(Encode(body)[i]).None? && Span(Encode(body)[i..]).Some?
    ensures HidesStamp(body)
  {
    var e := Encode(body)[i..];
    var j := Span(e).value;
    EncodedStarts(body[i]);
    EncodedCloses(body[i + j]);
    assert e[0] == Encode(body)[i] && e[j] == Encode(body)[i + j];
    forall k | i < k < i + j ensures IndexOf(body[k], ']', 0).None? {
      BeforeBracket(e[1..], k - i - 1);
      assert e[1..][k - i - 1] == Encode(body)[k];
      EncodedCloses(body[k]);
    }
    assert HidesStampAt(body, i, i + j);
  }

  lemma SpanOf(body: seq<string>, i: nat, j: nat)
    requires HidesStampAt(body, i, j)
    ensures Span(Encode(body)[i..]) == Some(j - i)
  {
    var e := Encode(body)[i..];
    EncodedStarts(body[i]);
    EncodedCloses(body[j]);
    forall k | 0 <= k < j - i - 1 ensures IndexOf(e[1..][k], ']', 0).None? { EncodedCloses(body[i + k + 1]); }
    BracketIs(e[1..], j - i - 1);
  }

  /** Which bodies are rewritten when the log is numbered. */
  lemma NumbersBodyIff(body: seq<string>)
    requires forall i | 0 <= i < |body| :: OldStamp(EncodeLine(body[i])).None?
    ensures !NoOld(Encode(body)) <==> HidesStamp(body)
  {
    if !NoOld(Encode(body)) {
      var i := OldAt(Encode(body));
      SpanFrom(body, i);
    }
    if HidesStamp(body) {
      var i, j :| 0 <= i < j < |body| && HidesStampAt(body, i, j);
      SpanOf(body, i, j);
      if NoOld(Encode(body)) { NoOldAt(Encode(body), i); }
    }
  }
}

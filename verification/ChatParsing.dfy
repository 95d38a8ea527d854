/** Parsing undoes appending: every entry is read back as it was written, and no body line becomes an entry. */
module ChatParsing {
  import opened Wrappers
  import opened Text
  import opened ChatText
  import opened ChatHeader
  import opened ChatHeaderProofs
  import opened ChatSections
  import opened ChatLog
  import opened ChatOldEntries
  import opened SessionTables

  // ---- escaping ----

  /** An escaped line is no header, no message marker, and no old entry by itself. */
  lemma EncodedIsInert(line: string)
    ensures !IsTagged(EncodeLine(line)) && ParseHeader(EncodeLine(line)).None? && MidAt(EncodeLine(line), 0).None?
    ensures IsLine(line) ==> IsLine(EncodeLine(line)) && OldStamp(EncodeLine(line)).None?
  {
    var e := EncodeLine(line);
    if IsTagged(line) {
      assert e[0] == '\\';
    }
    if ParseHeader(e).Some? { HeadersAreTagged(e); }
    if MidAt(e, 0).Some? { MidsAreTagged(e); }
  }

  lemma MidsAreTagged(line: string)
    requires MidAt(line, 0).Some?
    ensures IsTagged(line) && line[0] == '*' && IndexOf(line, ']', 3).Some?
  {
    var e := DigitsEnd(line, 4);
    AtChar(line, "]**", e, 0);
    assert line[0..4] == "**[M" && line[..3] == line[0..4][..3];
    forall j | 3 <= j < e ensures line[j] != ']' {
      if j == 3 { assert line[0..4][3] == line[3]; } else { assert line[4..e][j - 4] == line[j]; }
    }
    IndexIs(line, ']', 3, e);
    assert line[3..e][0] == 'M' && line[3..e][1..] == line[4..e];
  }

  /** Escaping is undone for every line but those that already look escaped. */
  lemma DecodeUndoesEncode(line: string)
    ensures DecodeLine(EncodeLine(line)) == line <==> !IsEscaped(line)
  {
    if IsTagged(line) {
      assert ("\\" + line)[1..] == line;
      assert line[0] == '*';
    }
  }

  lemma DecodesBody(body: seq<string>)
    ensures Decode(Encode(body)) == body <==> forall i | 0 <= i < |body| :: !IsEscaped(body[i])
  {
    forall i | 0 <= i < |body| ensures Decode(Encode(body))[i] == body[i] <==> !IsEscaped(body[i]) {
      DecodeUndoesEncode(body[i]);
    }
  }

  ghost predicate Inert(lines: seq<string>) {
    NoHeaders(lines, ParseHeader)
  }

  // ---- bodies ----

  lemma {:induction false} TrimLeftTwice(s: string)
    ensures TrimLeft(TrimLeft(s)) == TrimLeft(s)
  {
    if s != "" && IsSpace(s[0]) { TrimLeftTwice(s[1..]); }
  }

  lemma {:induction false} FrontAppend(t: seq<string>, more: seq<string>)
    ensures DropBlankFront(t + more) == if DropBlankFront(t) == [] then DropBlankFront(more)
            else DropBlankFront(t) + more
    ensures DropBlankFront(t) != [] ==> TrimLeft(DropBlankFront(t)[0]) != ""
  {
    if t == [] {
      assert t + more == more;
    } else if TrimLeft(t[0]) == "" {
      assert (t + more)[1..] == t[1..] + more;
      FrontAppend(t[1..], more);
    }
  }

  /** Trimming the front of the first line does not matter to the blank lines at the back. */
  lemma {:induction false} BackOfTrimmed(u: seq<string>)
    requires u != [] && TrimLeft(u[0]) != ""
    ensures var d := DropBlankBack(u);
            d != [] && d[0] == u[0] && DropBlankBack(u[0 := TrimLeft(u[0])]) == d[0 := TrimLeft(u[0])]
  {
    TrimLeftTwice(u[0]);
    var n := |u| - 1;
    if n > 0 && TrimLeft(u[n]) == "" {
      var v := u[0 := TrimLeft(u[0])];
      assert v[..n] == u[..n][0 := TrimLeft(u[0])];
      BackOfTrimmed(u[..n]);
    }
  }

  lemma StripFronted(t: seq<string>, u: seq<string>)
    requires u == DropBlankFront(t) && u != [] && TrimLeft(u[0]) != ""
    ensures StripLines(u[0 := TrimLeft(u[0])]) == StripLines(t)
  {
    var v := u[0 := TrimLeft(u[0])];
    TrimLeftTwice(u[0]);
    assert DropBlankFront(v) == v;
    BackOfTrimmed(u);
  }

  lemma RuleIsVisible()
    ensures TrimLeft(RULE) == RULE && TrimRight(RULE) == RULE
  {}

  /** The rule that an append puts behind an entry is taken away again by parsing, and nothing else. */
  lemma RuleIsUndone(t: seq<string>)
    ensures DropRule(StripLines(t + [RULE, ""])) == StripLines(t)
  {
    var more := [RULE, ""];
    FrontAppend(t, more);
    RuleIsVisible();
    var u := DropBlankFront(t);
    assert DropBlankFront(more) == more;
    assert (u + [RULE]) + [""] == u + more;
    BlankBack(u + [RULE], [""]);
    assert DropBlankBack(u + more) == u + [RULE];
    if u == [] {
      assert u + [RULE] == [RULE] && u + more == more;
      assert DropBlankBack(DropBlankFront(t + more)) == [RULE];
      assert [RULE][0 := RULE] == [RULE];
      assert StripLines(t + more) == [RULE];
      assert [RULE][..0] == [];
    } else {
      var v := u[0 := TrimLeft(u[0])];
      assert StripLines(t + more) == v + [RULE];
      assert (v + [RULE])[..|v|] == v;
      StripFronted(t, u);
    }
  }

  // ---- what trimming leaves ----

  lemma {:induction false} EndIsVisible(s: string)
    requires TrimLeft(s) != ""
    ensures var r := TrimRight(s); r != "" && !IsSpace(r[|r| - 1]) && r[0] == s[0]
  {
    var n := |s| - 1;
    if IsSpace(s[n]) {
      VisibleBefore(s);
      EndIsVisible(s[..n]);
    }
  }

  lemma {:induction false} VisibleBefore(s: string)
    requires TrimLeft(s) != "" && IsSpace(s[|s| - 1])
    ensures TrimLeft(s[..|s| - 1]) != ""
  {
    if IsSpace(s[0]) {
      VisibleBefore(s[1..]);
      assert s[..|s| - 1][1..] == s[1..][..|s| - 2];
    }
  }

  lemma {:induction false} StartIsVisible(s: string)
    requires TrimLeft(s) != ""
    ensures !IsSpace(TrimLeft(s)[0]) && TrimLeft(TrimLeft(s)) != ""
  {
    if IsSpace(s[0]) { StartIsVisible(s[1..]); }
  }

  lemma {:induction false} BackIsVisible(ls: seq<string>)
    ensures var d := DropBlankBack(ls); d == [] || (TrimLeft(d[|d| - 1]) != "" && d[0] == ls[0])
  {
    if ls != [] { BackIsVisible(ls[..|ls| - 1]); }
  }

  /** A stripped text is empty or trimmed. */
  lemma StrippedIsTrimmed(ls: seq<string>)
    ensures StripLines(ls) == [] || Trimmed(StripLines(ls))
  {
    FrontAppend(ls, []);
    assert ls + [] == ls;
    var f := DropBlankFront(ls);
    BackIsVisible(f);
    var a := DropBlankBack(f);
    if a != [] {
      assert a[0] == f[0] && TrimLeft(a[0]) != "";
      StartIsVisible(a[0]);
      var b := a[0 := TrimLeft(a[0])];
      EndIsVisible(b[|b| - 1]);
    }
  }

  lemma DropRuleIsTrimmed(ls: seq<string>)
    ensures DropRule(StripLines(ls)) == [] || Trimmed(DropRule(StripLines(ls)))
  {
    var t := StripLines(ls);
    StrippedIsTrimmed(ls);
    if t != [] { StrippedIsTrimmed(t[..|t| - 1]); }
  }

  lemma DecodedIsTrimmed(t: seq<string>)
    requires Trimmed(t)
    ensures Trimmed(Decode(t))
  {
    forall i | 0 <= i < |t| && IsEscaped(t[i])
      ensures var d := DecodeLine(t[i]); d != "" && d[0] == '*' && d[|d| - 1] == t[i][|t[i]| - 1]
    {
      assert "**["[0] == '*';
    }
  }

  /** What has something to trim is not read back. */
  lemma UntrimmedIsLost(t: seq<string>, body: seq<string>)
    requires body != [] && !Trimmed(body) && (t == [] || Trimmed(t))
    ensures Decode(t) != body
  {
    if t != [] { DecodedIsTrimmed(t); }
  }

  // ---- an entry as it was meant ----

  /** A text that survives being written and read: trimmed, and with no line that looks escaped already. */
  predicate ReadsBack(body: seq<string>) {
    Trimmed(body) && forall i | 0 <= i < |body| :: !IsEscaped(body[i])
  }

  predicate Proper(marker: string, r: Note) {
    Acceptable(r) && IsMarker(marker) && ValidTime(r.timestamp) && AreLines(r.body)
  }

  function Meant(marker: string, r: Note): Entry
    requires Proper(marker, r)
  {
    Entry(marker, r.timestamp, "HOST", r.body, Meta(Some(KeyOf(r).provider), Some(r.session), r.name, Some(r.event)))
  }

  predicate EndsInRule(body: seq<string>) {
    body != [] && body[|body| - 1] == RULE
  }

  lemma EncodedIsTrimmed(body: seq<string>)
    requires body != []
    ensures Trimmed(Encode(body)) <==> Trimmed(body)
    ensures EndsInRule(Encode(body)) <==> EndsInRule(body)
    ensures Inert(Encode(body))
  {
    forall i | 0 <= i < |body| ensures ParseHeader(Encode(body)[i]).None? { EncodedIsInert(body[i]); }
    forall i | 0 <= i < |body| && IsTagged(body[i])
      ensures body[i] != "" && !IsSpace(body[i][0]) && Encode(body)[i] == "\\" + body[i]
    {
      assert "**["[0] == '*';
    }
    assert !IsTagged(RULE);
  }

  function Within(inner: seq<string>): seq<string> {
    [""] + inner + [""]
  }

  function After(body: seq<string>): seq<string> {
    Within(Encode(body))
  }

  lemma StripsWithin(inner: seq<string>)
    ensures StripLines(Within(inner)) == StripLines(inner)
  {
    var u := DropBlankFront(inner);
    BlankFront([""], inner + [""]);
    assert Within(inner) == [""] + (inner + [""]);
    FrontAppend(inner, [""]);
    if u != [] { assert (u + [""])[..|u|] == u; }
  }

  lemma TrimmedIsStripped(ls: seq<string>)
    requires Trimmed(ls)
    ensures StripLines(ls) == ls
  {
    StripsBetween([], ls, []);
    assert [] + ls + [] == ls;
  }

  /** Once another entry follows, a body is read back exactly when it is trimmed and has no line that looks escaped. */
  lemma KeptBody(body: seq<string>)
    requires body != []
    ensures Decode(StripLines(Within(Encode(body)))) == body <==> ReadsBack(body)
  {
    StripsWithin(Encode(body));
    EncodedIsTrimmed(body);
    if Trimmed(body) {
      TrimmedIsStripped(Encode(body));
      DecodesBody(body);
    } else {
      StrippedIsTrimmed(Encode(body));
      UntrimmedIsLost(StripLines(Encode(body)), body);
    }
  }

  lemma {:induction false} NeverLonger(ls: seq<string>)
    ensures |DropBlankFront(ls)| <= |ls| && |DropBlankBack(ls)| <= |ls|
  {
    if ls != [] {
      NeverLonger(ls[1..]);
      NeverLonger(ls[..|ls| - 1]);
    }
  }

  /** While it is the last of the log, an entry also loses a body line that is a bare rule at the end. */
  lemma LastBody(body: seq<string>)
    requires body != []
    ensures Decode(DropRule(StripLines(After(body)))) == body <==> ReadsBack(body) && !EndsInRule(body)
  {
    StripsWithin(Encode(body));
    EncodedIsTrimmed(body);
    if !Trimmed(body) {
      DropRuleIsTrimmed(After(body));
      UntrimmedIsLost(DropRule(StripLines(After(body))), body);
    } else {
      TrimmedIsStripped(Encode(body));
      DecodesBody(body);
      if EndsInRule(body) {
        var shorter := Encode(body)[..|body| - 1];
        NeverLonger(shorter);
        NeverLonger(DropBlankFront(shorter));
        assert |DropRule(Encode(body))| < |body|;
      }
    }
  }

  lemma ReadsHeader(marker: string, r: Note)
    requires Proper(marker, r)
    ensures var h := Header(marker, r.timestamp, "HOST", Suffix(KeyOf(r), r.name, r.event));
            ParseHeader(Tag(marker, r.timestamp, KeyOf(r), r.name, r.event)) == Some(h)
            && Metadata(h.suffix) == Meta(Some(KeyOf(r).provider), Some(r.session), r.name, Some(r.event))
  {
    HeaderRoundTrip(marker, r.timestamp, KeyOf(r), r.name, r.event);
    MetadataRoundTrip(KeyOf(r), r.name, r.event);
  }

  // ---- a body that was taken for an old entry ----

  /** What numbering makes of one line. */
  ghost predicate Renumbered(before: string, after: string) {
    || after == before
    || (OpensStamp(before) && exists m :: after == "**[" + Numbered(m) + "]** [" + before[3..])
    || (ClosesStamp(before) && after == Unclosed(before))
  }

  lemma SpanRenumbers(lines: seq<string>, n: nat, i: nat)
    requires Span(lines).Some? && OldStamp(lines[0]).None? && i <= Span(lines).value
    ensures |NumberedSpan(n, lines)| == Span(lines).value + 1 && Renumbered(lines[i], NumberedSpan(n, lines)[i])
  {
    hide Numbered;
  }

  lemma {:induction false} NumberingRenumbers(lines: seq<string>, n: nat, i: nat)
    requires i < |lines| && forall k | 0 <= k < |lines| :: OldStamp(lines[k]).None?
    ensures |NumberOld(lines, n).0| == |lines| && Renumbered(lines[i], NumberOld(lines, n).0[i])
    decreases |lines|
  {
    hide Span, NumberedSpan, Numbered, Renumbered, OldStamp;
    NumberOldNumbers(lines, n);
    if Span(lines).None? {
      if i > 0 { NumberingRenumbers(lines[1..], n, i - 1); } else { SameLineRenumbers(lines[0]); }
    } else {
      var k := Span(lines).value;
      if i <= k {
        SpanRenumbers(lines, n + 1, i);
      } else {
        SpanRenumbers(lines, n + 1, k);
        NumberingRenumbers(lines[k + 1..], n + 1, i - k - 1);
      }
    }
  }

  lemma SameLineRenumbers(line: string)
    ensures Renumbered(line, line)
  {}

  lemma OpenedIsNoHeader(line: string, m: nat)
    requires OpensStamp(line)
    ensures ParseHeader("**[" + Numbered(m) + "]** [" + line[3..]).None?
  {
    var tail := " [" + line[3..];
    var after := "**[" + Numbered(m) + "]** [" + line[3..];
    NumberedIsMarker(m);
    MarkerChars(Numbered(m));
    var k := 3 + |Numbered(m)|;
    assert after == "**[" + Numbered(m) + "]**" + tail;
    assert forall j | 3 <= j < k :: after[j] == Numbered(m)[j - 3];
    IndexIs(after, ']', 3, k);
    assert after[k + 3..] == tail;
    assert TrimLeft(tail) == tail[1..];
    forall j | 1 <= j < |tail| ensures tail[j] != ']' {
      if j >= 2 {
        assert tail[j] == line[j + 1];
        NoBracket(line, 3, j + 1);
      }
    }
    IndexNone(tail[1..], ']', 1);
  }

  lemma {:induction false} NoBracket(line: string, i: nat, j: nat)
    requires IndexOf(line, ']', i).None? && i <= j < |line|
    ensures line[j] != ']'
    decreases j - i
  {
    if i < j { NoBracket(line, i + 1, j); }
  }

  lemma StampsAreTagged(line: string)
    requires ClosesStamp(line) && "**[" <= line && IsLine(line)
    ensures IsTagged(line)
  {
    var k := IndexOf(line, ']', 0).value;
    assert line[0] == '*' && line[1] == '*' && line[2] == '[';
    assert IndexOf(line, ']', 0) == IndexOf(line, ']', 1) == IndexOf(line, ']', 2) == IndexOf(line, ']', 3);
    assert line[..k][k - 4..] == line[k - 4..k];
    assert line[k - 4..k][0] == ' ';
    assert k >= 7;
    assert line[3..k][k - 7..] == line[k - 4..k];
  }

  lemma ClosedIsUntagged(line: string)
    requires ClosesStamp(line) && !IsTagged(line) && IsLine(line)
    ensures !("**[" <= Unclosed(line)) && Unclosed(line) != "" && Unclosed(line)[0] == line[0]
  {
    var k := IndexOf(line, ']', 0).value;
    var u := Unclosed(line);
    assert k >= 4 && u[..5] == line[..5];
    if "**[" <= u {
      assert u[..3] == u[..5][..3] == line[..3];
      StampsAreTagged(line);
    }
  }

  lemma RenumberedIsInert(line: string, after: string)
    requires !IsTagged(line) && IsLine(line) && Renumbered(line, after)
    ensures ParseHeader(after).None?
    ensures MidAt(after, 0).Some? ==> OpensStamp(line)
    ensures line != "" && !IsSpace(line[0]) ==> after != "" && !IsSpace(after[0])
    ensures line != "" && !IsSpace(line[|line| - 1]) ==> after != "" && !IsSpace(after[|after| - 1])
  {
    if after == line {
      if ParseHeader(line).Some? { HeadersAreTagged(line); }
      if MidAt(line, 0).Some? { MidsAreTagged(line); }
    } else if OpensStamp(line) && exists m :: after == "**[" + Numbered(m) + "]** [" + line[3..] {
      var m :| after == "**[" + Numbered(m) + "]** [" + line[3..];
      OpenedIsNoHeader(line, m);
      if |line| > 3 { assert after[|after| - 1] == line[|line| - 1]; }
    } else {
      ClosedIsUntagged(line);
      if line != "" && !IsSpace(line[|line| - 1]) { ClosedEnd(line); }
      if MidAt(after, 0).Some? { MidsAreTagged(after); }
    }
  }

  lemma ClosedEnd(line: string)
    requires ClosesStamp(line) && line != "" && !IsSpace(line[|line| - 1])
    ensures Unclosed(line) != "" && !IsSpace(Unclosed(line)[|Unclosed(line)| - 1])
  {
    var k := IndexOf(line, ']', 0).value;
    var u := Unclosed(line);
    if k + 3 < |line| { assert u[|u| - 1] == line[|line| - 1]; } else { assert u[|u| - 1] == line[k]; }
  }

  /** The body of an entry after its log was numbered. */
  function Taken(body: seq<string>): seq<string> {
    NumberOld(Encode(body), 0).0
  }

  /** It has no header either; the old entry that was seen in it, if one was, has changed it. */
  lemma TakenBody(body: seq<string>)
    requires body != [] && AreLines(body)
    ensures |Taken(body)| == |body| && Inert(Taken(body)) && (Trimmed(body) ==> Trimmed(Taken(body)))
    ensures HidesStamp(body) ==> Decode(Taken(body)) != body && HasMid(Taken(body))
    ensures !HidesStamp(body) ==> Taken(body) == Encode(body)
  {
    hide NumberOld, EncodeLine, HidesStamp, OldStamp, OpensStamp, ParseHeader, MidAt;
    NumberOldNumbers(Encode(body), 0);
    forall i | 0 <= i < |body| ensures OldStamp(EncodeLine(body[i])).None? { EncodedIsInert(body[i]); }
    forall i | 0 <= i < |body| ensures ParseHeader(Taken(body)[i]).None? { TakenLine(body, i); }
    TakenLine(body, 0);
    TakenLine(body, |body| - 1);
    EncodedIsTrimmed(body);
    NumbersBodyIff(body);
    if HidesStamp(body) {
      var i :| 0 <= i < |body| && MidAt(Taken(body)[i], 0).Some?;
      TakenLine(body, i);
      TakenDiffers(body, i);
    }
  }

  lemma TakenLine(body: seq<string>, i: nat)
    requires AreLines(body) && i < |body|
    ensures |Taken(body)| == |body|
    ensures var e, b := Encode(body)[i], Taken(body)[i];
            && ParseHeader(b).None? && (MidAt(b, 0).Some? ==> OpensStamp(body[i]))
            && (e != "" && !IsSpace(e[0]) ==> b != "" && !IsSpace(b[0]))
            && (e != "" && !IsSpace(e[|e| - 1]) ==> b != "" && !IsSpace(b[|b| - 1]))
  {
    hide NumberOld, EncodeLine, OldStamp, OpensStamp, ParseHeader, MidAt, Renumbered, IsTagged;
    var e := Encode(body);
    forall k | 0 <= k < |e| ensures OldStamp(e[k]).None? { EncodedIsInert(body[k]); }
    NumberingRenumbers(e, 0, i);
    EncodedIsInert(body[i]);
    RenumberedIsInert(e[i], Taken(body)[i]);
    EncodedStarts(body[i]);
  }

  lemma TakenDiffers(body: seq<string>, i: nat)
    requires i < |body| == |Taken(body)| && MidAt(Taken(body)[i], 0).Some? && OpensStamp(body[i])
    ensures Decode(Taken(body)) != body
  {
    var after := Taken(body)[i];
    MidsAreTagged(after);
    assert Decode(Taken(body))[i] == DecodeLine(after) == after;
    assert IndexOf(body[i], ']', 3).None? && IndexOf(after, ']', 3).Some?;
  }

  /** A body that was taken for an old entry is not read back. */
  lemma TakenIsNotKept(body: seq<string>)
    requires body != [] && AreLines(body) && HidesStamp(body)
    ensures Decode(StripLines(Within(Taken(body)))) != body
  {
    hide NumberOld, HidesStamp;
    TakenBody(body);
    StripsWithin(Taken(body));
    if Trimmed(body) {
      TrimmedIsStripped(Taken(body));
    } else {
      StrippedIsTrimmed(Taken(body));
      UntrimmedIsLost(StripLines(Taken(body)), body);
    }
  }

  // ---- appending to any log ----

  /** An entry read with a rule behind it. */
  function ReadClosed(h: Header, after: seq<string>): Entry {
    ReadEntry(h, after).(body := Decode(StripLines(after)))
  }

  function ClosedEntries(sections: seq<(Header, seq<string>)>): seq<Entry> {
    if sections == [] then []
    else
      var n := |sections| - 1;
      Entries(sections[..n]) + [ReadClosed(sections[n].0, sections[n].1)]
  }

  lemma ExtendedEntries(sections: seq<(Header, seq<string>)>)
    ensures Entries(Extend(sections, [RULE, ""])) == ClosedEntries(sections)
  {
    if sections != [] {
      var n := |sections| - 1;
      RuleIsUndone(sections[n].1);
      assert Extend(sections, [RULE, ""])[..n] == sections[..n];
    }
  }

  function HeaderOf(marker: string, r: Note): Header
    requires Acceptable(r)
  {
    Header(marker, r.timestamp, "HOST", Suffix(KeyOf(r), r.name, r.event))
  }

  lemma SectionsAfterFrame(lines: seq<string>, marker: string, r: Note, inner: seq<string>)
    requires Proper(marker, r) && Inert(inner)
    ensures Sections(lines + Framed(marker, r, inner), ParseHeader)
         == Extend(Sections(lines, ParseHeader), [RULE, ""]) + [(HeaderOf(marker, r), Within(inner))]
  {
    hide Sections, Extend, Tag, StripLines, Decode, Metadata, Suffix;
    var tag := Tag(marker, r.timestamp, KeyOf(r), r.name, r.event);
    ReadsHeader(marker, r);
    assert ParseHeader(RULE).None? && ParseHeader("").None?;
    assert Framed(marker, r, inner) == [RULE, ""] + ([tag] + Within(inner));
    SectionsAppend(lines, [RULE, ""], tag, HeaderOf(marker, r), Within(inner), ParseHeader);
  }

  /** The newest entry, as it is read while it is the last. */
  function Newest(marker: string, r: Note): Entry
    requires Acceptable(r)
  {
    ReadEntry(HeaderOf(marker, r), After(r.body))
  }

  lemma NewestIsMeant(marker: string, r: Note)
    requires Proper(marker, r)
    ensures Newest(marker, r) == Meant(marker, r).(body := Newest(marker, r).body)
    ensures Newest(marker, r).body == r.body <==> ReadsBack(r.body) && !EndsInRule(r.body)
  {
    ReadsHeader(marker, r);
    LastBody(r.body);
  }

  /**
   Appending to any text at all: the entries before stay what they were, the last of them no longer loses a rule,
   and the new entry comes last; its body is as it was meant exactly when it is one that is read back and does not end
   in a bare rule.
   */
  lemma ParseAfterAppend(lines: seq<string>, marker: string, r: Note)
    requires Proper(marker, r)
    ensures Parse(lines + Block(marker, r)) == ClosedEntries(Sections(lines, ParseHeader)) + [Newest(marker, r)]
    ensures Newest(marker, r) == Meant(marker, r).(body := Newest(marker, r).body)
    ensures Newest(marker, r).body == r.body <==> ReadsBack(r.body) && !EndsInRule(r.body)
  {
    EncodedIsTrimmed(r.body);
    SectionsAfterFrame(lines, marker, r, Encode(r.body));
    NewestIsMeant(marker, r);
    ExtendedEntries(Sections(lines, ParseHeader));
    OneMoreSection(Extend(Sections(lines, ParseHeader), [RULE, ""]), (HeaderOf(marker, r), After(r.body)), []);
  }

  // ---- a log made of appended entries ----

  type Appended = (string, Note)

  predicate AllProper(es: seq<Appended>) {
    forall i | 0 <= i < |es| :: Proper(es[i].0, es[i].1)
  }

  /** The log of these entries; the body of entry `taken`, if there is one, was taken for an old entry. */
  function LogWith(es: seq<Appended>, taken: Option<nat>): seq<string>
    requires AllProper(es)
  {
    if es == [] then HEADER
    else
      var n := |es| - 1;
      LogWith(es[..n], taken)
      + Framed(es[n].0, es[n].1, if taken == Some(n) then Taken(es[n].1.body) else Encode(es[n].1.body))
  }

  function LogOf(es: seq<Appended>): seq<string>
    requires AllProper(es)
  {
    LogWith(es, None)
  }

  /** What a log with these entries shows, once another entry follows. */
  function Shown(es: seq<Appended>, taken: Option<nat>): seq<Entry>
    requires AllProper(es)
  {
    if es == [] then []
    else
      var n := |es| - 1;
      Shown(es[..n], taken) + [ShownOne(es[n].0, es[n].1, taken == Some(n))]
  }

  function ShownOne(marker: string, r: Note, taken: bool): Entry
    requires Proper(marker, r)
  {
    Meant(marker, r).(body := Decode(StripLines(Within(if taken then Taken(r.body) else Encode(r.body)))))
  }

  lemma ShownOneIs(marker: string, r: Note, taken: bool)
    requires Proper(marker, r) && (taken ==> HidesStamp(r.body))
    ensures var e := ShownOne(marker, r, taken);
            e == Meant(marker, r).(body := e.body) && (e.body == r.body <==> !taken && ReadsBack(r.body))
  {
    if taken { TakenIsNotKept(r.body); } else { KeptBody(r.body); }
  }

  function AllMeant(es: seq<Appended>): (r: seq<Entry>)
    requires AllProper(es)
    ensures |r| == |es|
  {
    seq(|es|, i requires 0 <= i < |es| => Meant(es[i].0, es[i].1))
  }

  lemma NoStarNoHeader(line: string)
    requires line == "" || line[0] != '*'
    ensures ParseHeader(line).None? && OldStamp(line).None?
  {}

  lemma HeaderHasNoEntries()
    ensures Inert(HEADER) && Sections(HEADER, ParseHeader) == []
  {
    assert TITLE[0] == '#' && INTRODUCTION[0] == 'U';
    forall i | 0 <= i < |HEADER| ensures ParseHeader(HEADER[i]).None? { NoStarNoHeader(HEADER[i]); }
    NothingInHeader(HEADER);
  }

  lemma NothingInHeader(lines: seq<string>)
    requires Inert(lines)
    ensures Sections(lines, ParseHeader) == []
  {
    SectionsSkip(lines, [], ParseHeader);
    assert lines + [] == lines;
  }

  lemma ClosedIsMeant(marker: string, r: Note, inner: seq<string>)
    requires Proper(marker, r)
    ensures ReadClosed(HeaderOf(marker, r), Within(inner))
            == Meant(marker, r).(body := Decode(StripLines(Within(inner))))
  {
    ReadsHeader(marker, r);
  }

  lemma ClosedAfterFrame(lines: seq<string>, marker: string, r: Note, inner: seq<string>)
    requires Proper(marker, r) && Inert(inner)
    ensures ClosedEntries(Sections(lines + Framed(marker, r, inner), ParseHeader))
         == ClosedEntries(Sections(lines, ParseHeader)) + [Meant(marker, r).(body := Decode(StripLines(Within(inner))))]
  {
    hide Framed, Decode, StripLines, Sections, Extend, ReadClosed, Within, Meant;
    SectionsAfterFrame(lines, marker, r, inner);
    ClosedIsMeant(marker, r, inner);
    ExtendedEntries(Sections(lines, ParseHeader));
    OneMoreClosed(Extend(Sections(lines, ParseHeader), [RULE, ""]), (HeaderOf(marker, r), Within(inner)));
  }

  lemma OneMoreClosed(front: seq<(Header, seq<string>)>, last: (Header, seq<string>))
    ensures ClosedEntries(front + [last]) == Entries(front) + [ReadClosed(last.0, last.1)]
  {
    assert (front + [last])[..|front|] == front;
  }

  lemma NothingClosed()
    ensures ClosedEntries([]) == []
  {}

  lemma OneMoreShown(lines: seq<string>, marker: string, r: Note, taken: bool)
    requires Proper(marker, r)
    ensures ClosedEntries(Sections(lines
            + Framed(marker, r, if taken then Taken(r.body) else Encode(r.body)), ParseHeader))
         == ClosedEntries(Sections(lines, ParseHeader)) + [ShownOne(marker, r, taken)]
  {
    hide Framed, Taken, Encode, Decode, StripLines, Sections, ClosedEntries, Within;
    var inner := if taken then Taken(r.body) else Encode(r.body);
    TakenBody(r.body);
    EncodedIsTrimmed(r.body);
    ClosedAfterFrame(lines, marker, r, inner);
  }

  lemma MeantBody(marker: string, r: Note)
    requires Proper(marker, r)
    ensures Acceptable(r) && Meant(marker, r).body == r.body
  {}

  /** Every entry but the last is read back as it was meant or taken; the last one too, once another one follows. */
  lemma {:induction false} ClosedAreShown(es: seq<Appended>, taken: Option<nat>)
    requires AllProper(es)
    ensures ClosedEntries(Sections(LogWith(es, taken), ParseHeader)) == Shown(es, taken)
  {
    hide Framed, Taken, Encode, ShownOne, Sections, ClosedEntries, Proper, Acceptable;
    if es == [] {
      HeaderHasNoEntries();
      NothingClosed();
    } else {
      var n := |es| - 1;
      ClosedAreShown(es[..n], taken);
      var (marker, r) := es[n];
      MeantBody(marker, r);
      OneMoreShown(LogWith(es[..n], taken), marker, r, taken == Some(n));
      assert LogWith(es, taken)
          == LogWith(es[..n], taken) + Framed(marker, r, if taken == Some(n) then Taken(r.body) else Encode(r.body));
      assert Shown(es, taken) == Shown(es[..n], taken) + [ShownOne(marker, r, taken == Some(n))];
    }
  }

  lemma {:induction false} ShownAt(es: seq<Appended>, taken: Option<nat>, i: nat)
    requires AllProper(es) && i < |es|
    ensures |Shown(es, taken)| == |es| && Shown(es, taken)[i] == ShownOne(es[i].0, es[i].1, taken == Some(i))
  {
    hide ShownOne, Proper;
    var n := |es| - 1;
    if i < n {
      ShownAt(es[..n], taken, i);
    } else if n > 0 {
      ShownAt(es[..n], taken, 0);
    }
  }

  /** How an entry of the log is read: all as it was meant, but for its body. */
  ghost predicate ReadAt(es: seq<Appended>, taken: Option<nat>, i: nat, e: Entry)
    requires AllProper(es) && i < |es|
  {
    && e == Meant(es[i].0, es[i].1).(body := e.body)
    && (e.body == es[i].1.body <==> taken != Some(i) && IsRead(es, i))
  }

  /** The body is one that is read back, and at the end of the log it does not end in a bare rule. */
  predicate IsRead(es: seq<Appended>, i: nat)
    requires i < |es|
  {
    ReadsBack(es[i].1.body) && (i < |es| - 1 || !EndsInRule(es[i].1.body))
  }

  ghost predicate Hides(es: seq<Appended>, taken: Option<nat>) {
    taken.Some? ==> taken.value < |es| && HidesStamp(es[taken.value].1.body)
  }

  /** The last entry of a log, as it is read. */
  function ReadLast(marker: string, r: Note, inner: seq<string>): Entry
    requires Acceptable(r)
  {
    ReadEntry(HeaderOf(marker, r), Within(inner))
  }

  lemma ReadLastIsMeant(marker: string, r: Note, inner: seq<string>)
    requires Proper(marker, r)
    ensures ReadLast(marker, r, inner) == Meant(marker, r).(body := Decode(DropRule(StripLines(Within(inner)))))
  {
    ReadsHeader(marker, r);
  }

  /** A body that was taken for an old entry is not read back at the end of the log either. */
  lemma TakenIsLost(body: seq<string>)
    requires body != [] && AreLines(body) && HidesStamp(body)
    ensures Decode(DropRule(StripLines(Within(Taken(body))))) != body
  {
    hide NumberOld, HidesStamp, Encode, TrimLeft, TrimRight;
    TakenBody(body);
    StripsWithin(Taken(body));
    var t := Taken(body);
    if !Trimmed(body) {
      DropRuleIsTrimmed(Within(t));
      UntrimmedIsLost(DropRule(StripLines(Within(t))), body);
    } else {
      TrimmedIsStripped(t);
      if t[|t| - 1] == RULE {
        var shorter := t[..|t| - 1];
        NeverLonger(shorter);
        NeverLonger(DropBlankFront(shorter));
        assert |DropRule(t)| < |body|;
      }
    }
  }

  lemma ParseAfterFrame(lines: seq<string>, marker: string, r: Note, inner: seq<string>)
    requires Proper(marker, r) && Inert(inner)
    ensures Parse(lines + Framed(marker, r, inner))
            == ClosedEntries(Sections(lines, ParseHeader)) + [ReadLast(marker, r, inner)]
  {
    hide Framed, Sections, Extend, ReadEntry, Within;
    SectionsAfterFrame(lines, marker, r, inner);
    ExtendedEntries(Sections(lines, ParseHeader));
    OneMoreSection(Extend(Sections(lines, ParseHeader), [RULE, ""]), (HeaderOf(marker, r), Within(inner)), []);
  }

  /** How the last entry of a log compares with its note. */
  lemma LastCompares(marker: string, r: Note, taken: bool)
    requires Proper(marker, r) && (taken ==> HidesStamp(r.body))
    ensures var inner := if taken then Taken(r.body) else Encode(r.body);
            && Inert(inner)
            && (ReadLast(marker, r, inner).body == r.body <==> !taken && ReadsBack(r.body) && !EndsInRule(r.body))
  {
    TakenBody(r.body);
    EncodedIsTrimmed(r.body);
    ReadLastIsMeant(marker, r, if taken then Taken(r.body) else Encode(r.body));
    if taken { TakenIsLost(r.body); } else { LastBody(r.body); }
  }

  lemma ParsedLast(es: seq<Appended>, taken: Option<nat>)
    requires AllProper(es) && es != [] && Hides(es, taken)
    ensures var parsed := Parse(LogWith(es, taken));
            && |parsed| == |es| && parsed[..|es| - 1] == Shown(es[..|es| - 1], taken)
            && ReadAt(es, taken, |es| - 1, parsed[|es| - 1])
  {
    hide Framed, Taken, Encode, HidesStamp, Decode, Parse, Sections, ClosedEntries, EndsInRule, ReadsBack, ReadLast,
      Meant;
    var n := |es| - 1;
    var (marker, r) := es[n];
    assert Proper(marker, r);
    var inner := if taken == Some(n) then Taken(r.body) else Encode(r.body);
    LastCompares(marker, r, taken == Some(n));
    ClosedAreShown(es[..n], taken);
    ParseAfterFrame(LogWith(es[..n], taken), marker, r, inner);
    ReadLastIsMeant(marker, r, inner);
    if n > 0 { ShownAt(es[..n], taken, 0); }
  }

  lemma ParsedAt(es: seq<Appended>, taken: Option<nat>, i: nat)
    requires AllProper(es) && i < |es| && Hides(es, taken)
    ensures |Parse(LogWith(es, taken))| == |es| && ReadAt(es, taken, i, Parse(LogWith(es, taken))[i])
  {
    hide Framed, LogWith, HidesStamp, Parse, EndsInRule, ReadsBack, Proper, Shown, Meant, ShownOne;
    ParsedLast(es, taken);
    if i < |es| - 1 {
      assert Proper(es[i].0, es[i].1);
      ShownAt(es[..|es| - 1], taken, i);
      assert Parse(LogWith(es, taken))[..|es| - 1][i] == Parse(LogWith(es, taken))[i];
      ShownOneIs(es[i].0, es[i].1, taken == Some(i));
    }
  }

  lemma MeansWhatItReads(es: seq<Appended>, taken: Option<nat>, i: nat)
    requires AllProper(es) && i < |es| && Hides(es, taken)
    ensures |Parse(LogWith(es, taken))| == |es|
    ensures Parse(LogWith(es, taken))[i] == AllMeant(es)[i] <==> taken != Some(i) && IsRead(es, i)
  {
    hide LogWith, HidesStamp, Parse, IsRead, Proper, Meant;
    ParsedAt(es, taken, i);
    MeantBody(es[i].0, es[i].1);
  }

  lemma EqualIff(parsed: seq<Entry>, meant: seq<Entry>, es: seq<Appended>, taken: Option<nat>)
    requires |parsed| == |meant| == |es| && (taken.Some? ==> taken.value < |es|)
    requires forall i | 0 <= i < |es| :: parsed[i] == meant[i] <==> taken != Some(i) && IsRead(es, i)
    ensures parsed == meant <==> taken.None? && forall i | 0 <= i < |es| :: IsRead(es, i)
  {
    hide *;
    if taken.Some? { assert parsed[taken.value] != meant[taken.value]; }
  }

  lemma ParsesToMeant(es: seq<Appended>, taken: Option<nat>)
    requires AllProper(es) && Hides(es, taken)
    ensures Parse(LogWith(es, taken)) == AllMeant(es) <==> taken.None? && forall i | 0 <= i < |es| :: IsRead(es, i)
  {
    hide LogWith, HidesStamp, Parse, IsRead, AllProper, AllMeant;
    var parsed := Parse(LogWith(es, taken));
    if es == [] {
      HeaderIsTheLog();
    } else {
      MeansWhatItReads(es, taken, 0);
      forall i | 0 <= i < |es| ensures parsed[i] == AllMeant(es)[i] <==> taken != Some(i) && IsRead(es, i) {
        MeansWhatItReads(es, taken, i);
      }
      EqualIff(parsed, AllMeant(es), es, taken);
    }
  }

  lemma HeaderIsTheLog()
    ensures AllProper([]) && forall taken :: Parse(LogWith([], taken)) == []
  {
    HeaderParsesToNothing();
  }

  lemma HeaderParsesToNothing()
    ensures Parse(HEADER) == []
  {
    HeaderHasNoEntries();
  }

  /**
   Parsing a log gives exactly the entries that were appended, in order, with marker, provider, session, name, key and
   body, when every body is trimmed and has no line that looks escaped, and the last does not end in a bare rule; and
   only then.
   */
  lemma ParseUndoesAppend(es: seq<Appended>)
    requires AllProper(es)
    ensures Parse(LogOf(es)) == AllMeant(es) <==> forall i | 0 <= i < |es| :: IsRead(es, i)
  {
    hide Parse, LogWith, AllMeant, IsRead;
    ParsesToMeant(es, None);
  }
}

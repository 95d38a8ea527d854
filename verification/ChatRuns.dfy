/**
 Whole runs of appends, also such that die between the two files: numbers grow, and repeating an append does nothing.
 */
module ChatRuns {
  import opened Wrappers
  import opened Text
  import opened ChatText
  import opened ChatHeader
  import opened ChatSections
  import opened ChatLog
  import opened ChatOldEntries
  import opened ChatParsing
  import opened Decimal
  import opened SessionTables

  // ---- numbering a log that was appended to ----

  /** The number a message gets next depends on what the log and the counter say, whichever is ahead. */
  lemma HighestIs(s: LogState)
    ensures Highest(s) == Max(s.counter, HighestMid(Migrate(Current(s)).0))
  {
    MigrateSettles(Current(s));
  }

  predicate IsMessage(marker: string) {
    "M" <= marker
  }

  lemma NotAStamp(m: string)
    requires Without(m, ' ')
    ensures !EndsWith(m, " UTC")
  {
    if |m| >= 4 { assert m[|m| - 4..][0] == m[|m| - 4]; }
  }

  /** The header line of an entry neither is nor starts nor ends an old entry. */
  lemma TagIsNotOld(marker: string, rest: string)
    requires IsMarker(marker)
    ensures var line := "**[" + marker + "]**" + rest;
            !Starts(line) && IndexOf(line, ']', 0).Some? && !ClosesStamp(line)
  {
    var line := "**[" + marker + "]**" + rest;
    var k := 3 + |marker|;
    MarkerChars(marker);
    assert forall j | 3 <= j < k :: line[j] == marker[j - 3];
    IndexIs(line, ']', 3, k);
    IndexIs(line, ']', 0, k);
    assert line[3..k] == marker;
    NotAStamp(marker);
    NotAStamp(line[..k]);
  }

  lemma TagHolds(n: nat, rest: string)
    ensures MidAt("**[" + Numbered(n) + "]**" + rest, 0).Some?
    ensures n in Mids("**[" + Numbered(n) + "]**" + rest, 0)
  {
    StartsNumbered(n, rest);
    FirstMid("**[" + Numbered(n) + "]**" + rest);
  }

  lemma OtherTag(marker: string, rest: string)
    requires IsMarker(marker)
    ensures MidAt("**[" + marker + "]**" + rest, 0).Some? <==> IsMessage(marker)
  {
    var line := "**[" + marker + "]**" + rest;
    MarkerChars(marker);
    assert line[3] == marker[0] && line[0..4][3] == line[3];
    if IsMessage(marker) {
      assert marker[0] == 'M' && marker == "M" + marker[1..];
      MidOfTag(marker[1..], rest);
      assert line == "**[M" + marker[1..] + "]**" + rest;
    }
  }

  function TagOf(marker: string, r: Note): string
    requires Acceptable(r)
  {
    Tag(marker, r.timestamp, KeyOf(r), r.name, r.event)
  }

  lemma TagFacts(marker: string, r: Note)
    requires Acceptable(r) && IsMarker(marker)
    ensures var line := TagOf(marker, r);
            !Starts(line) && IndexOf(line, ']', 0).Some? && !ClosesStamp(line)
              && (MidAt(line, 0).Some? <==> IsMessage(marker))
  {
    hide IsMarker, MidAt, Starts, ClosesStamp;
    var rest := " [" + r.timestamp + "]" + (" `HOST`" + Suffix(KeyOf(r), r.name, r.event));
    TagIsNotOld(marker, rest);
    OtherTag(marker, rest);
  }

  lemma FrameSeals(marker: string, r: Note, inner: seq<string>)
    requires Acceptable(r) && IsMarker(marker)
    ensures Sealed(Framed(marker, r, inner))
  {
    hide Tag, ClosesStamp, IsMarker;
    TagFacts(marker, r);
    var f := Framed(marker, r, inner);
    assert f[0] == RULE && f[1] == "" && f[2] == TagOf(marker, r);
    assert IndexOf(RULE, ']', 0).None? && IndexOf("", ']', 0).None?;
    BracketIs(f, 2);
  }

  /** Numbering finds nothing in an entry but what its body may hide. */
  lemma NumbersFrame(marker: string, r: Note)
    requires Acceptable(r) && IsMarker(marker)
    ensures NumberOld(Block(marker, r), 0).0 == Framed(marker, r, Taken(r.body))
  {
    hide Tag, IsMarker, Encode, Starts, ClosesStamp, NumberOld, Sealed, TagOf;
    TagFacts(marker, r);
    var front, inner := Front(marker, r), Encode(r.body);
    FrameIs(marker, r, inner);
    FrameIs(marker, r, Taken(r.body));
    RuleStartsNone();
    NothingStarts(front, inner + [""], 0);
    EmptyLine(NumberOld(inner, 0).1);
    NumberOldConcat(inner, [""], 0);
  }

  function Front(marker: string, r: Note): seq<string>
    requires Acceptable(r)
  {
    [RULE, "", TagOf(marker, r), ""]
  }

  lemma FrameIs(marker: string, r: Note, inner: seq<string>)
    requires Acceptable(r)
    ensures Framed(marker, r, inner) == Front(marker, r) + (inner + [""])
  {}

  lemma RuleStartsNone()
    ensures !Starts(RULE) && !Starts("")
  {
    assert RULE[0] == '-' && "**["[0] == '*';
  }

  lemma EmptyLine(n: nat)
    ensures Sealed([""]) && NumberOld([""], n) == ([""], n)
  {
    assert IndexOf("", ']', 0).None?;
    RuleStartsNone();
    StartsNone([""]);
    assert [""][1..] == [] && [""] + [] == [""];
  }

  lemma FrameHasMid(marker: string, r: Note, inner: seq<string>)
    requires Acceptable(r) && IsMarker(marker)
    ensures HasMid(Framed(marker, r, inner)) <==> IsMessage(marker) || HasMid(inner)
  {
    hide Tag, MidAt, IsMarker;
    TagFacts(marker, r);
    var tag := TagOf(marker, r);
    assert Framed(marker, r, inner) == [RULE, ""] + ([tag] + ([""] + (inner + [""])));
    MidAmong([RULE, ""], [tag] + ([""] + (inner + [""])));
    MidAmong([tag], [""] + (inner + [""]));
    MidAmong([""], inner + [""]);
    MidAmong(inner, [""]);
    RuleHasNone();
    assert [tag][0] == tag;
  }

  lemma RuleHasNone()
    ensures !HasMid([RULE, ""]) && !HasMid([""])
  {}

  lemma EncodedHasNone(body: seq<string>)
    ensures !HasMid(Encode(body))
  {
    forall i | 0 <= i < |body| ensures MidAt(Encode(body)[i], 0).None? { EncodedIsInert(body[i]); }
  }

  /** Numbering takes the body of a new entry for an old one when it hides a stamp and the log has no message yet. */
  ghost predicate TakesBody(lines: seq<string>, marker: string, r: Note) {
    HidesStamp(r.body) && !HasMid(lines) && !IsMessage(marker)
  }

  lemma AppendMigrates(lines: seq<string>, marker: string, r: Note)
    requires Settled(lines) && Acceptable(r) && IsMarker(marker) && AreLines(r.body)
    ensures Migrate(lines + Block(marker, r)).0
         == lines + Framed(marker, r, if TakesBody(lines, marker, r) then Taken(r.body) else Encode(r.body))
    ensures HasMid(lines + Block(marker, r)) <==> HasMid(lines) || IsMessage(marker)
  {
    hide NumberOld, Taken, HidesStamp, Framed, Encode, IsMarker;
    var block := Block(marker, r);
    FrameHasMid(marker, r, Encode(r.body));
    EncodedHasNone(r.body);
    MidAmong(lines, block);
    TakenBody(r.body);
    if HasMid(lines + block) {
      SettledStays(lines + block);
    } else {
      FrameSeals(marker, r, Encode(r.body));
      NumberOldConcat(lines, block, 0);
      NumberOldIdle(lines, 0);
      NumbersFrame(marker, r);
    }
  }

  // ---- one append ----

  /** What the two public entry points let through: new messages, and events that are not messages. */
  predicate Public(r: Note) {
    Acceptable(r) && (r.marker == "M0" || !IsMessage(r.marker))
  }

  /** ... with a header line that can be read: the time stamp has no closing bracket. */
  predicate Readable(r: Note) {
    Public(r) && ValidTime(r.timestamp) && AreLines(r.body)
  }

  lemma RenderedIsMarker(s: LogState, r: Note)
    requires Public(r)
    ensures IsMarker(Rendered(s, r)) && Scope(Rendered(s, r)) == (if r.marker == "M0" then "M" else r.marker)
    ensures IsMessage(Rendered(s, r)) <==> r.marker == "M0"
  {
    NumberedIsMarker(Highest(s) + 1);
  }

  lemma RenderedIsProper(s: LogState, r: Note)
    requires Readable(r)
    ensures Proper(Rendered(s, r), r) && Scope(Rendered(s, r)) == (if r.marker == "M0" then "M" else r.marker)
    ensures IsMessage(Rendered(s, r)) <==> r.marker == "M0"
  {
    RenderedIsMarker(s, r);
  }

  lemma BlockHolds(n: nat, r: Note)
    requires Acceptable(r)
    ensures HighestMid(Block(Numbered(n), r)) >= n
  {
    var tag := Tag(Numbered(n), r.timestamp, KeyOf(r), r.name, r.event);
    TagHolds(n, " [" + r.timestamp + "]" + (" `HOST`" + Suffix(KeyOf(r), r.name, r.event)));
    assert Block(Numbered(n), r)[2] == tag;
    HighestOf(Block(Numbered(n), r), 2);
  }

  /** The text after a note was posted, whether or not the counter was written, and after it is numbered. */
  lemma PostedText(s: LogState, r: Note, written: bool)
    requires Readable(r) && Append(s, r, written).1.Posted?
    ensures var lines, marker, s' := Migrate(Current(s)).0, Rendered(s, r), Append(s, r, written).0;
            && Settled(lines) && Current(s') == lines + Block(marker, r)
            && Migrate(Current(s')).0
               == lines + Framed(marker, r, if TakesBody(lines, marker, r) then Taken(r.body) else Encode(r.body))
            && (HasMid(Current(s')) <==> HasMid(lines) || r.marker == "M0")
  {
    hide Parse, FindEvent, Migrate, Rendered, Block, Settled, Framed, Readable, Proper;
    MigrateSettles(Current(s));
    RenderedIsProper(s, r);
    AppendMigrates(Migrate(Current(s)).0, Rendered(s, r), r);
  }

  /** Whatever numbering does to the text of an entry, no number in the log before it is lost, nor that of a message. */
  lemma HighestStays(lines: seq<string>, marker: string, r: Note)
    requires Settled(lines) && Acceptable(r) && IsMarker(marker)
    ensures HighestMid(Migrate(lines + Block(marker, r)).0) >= HighestMid(lines)
    ensures IsMessage(marker) ==> HighestMid(Migrate(lines + Block(marker, r)).0) >= HighestMid(Block(marker, r))
  {
    hide NumberOld, Framed, Encode, IsMarker, HighestMid;
    var block := Block(marker, r);
    FrameHasMid(marker, r, Encode(r.body));
    MidAmong(lines, block);
    HighestConcat(lines, block);
    if HasMid(lines + block) {
      SettledStays(lines + block);
    } else {
      FrameSeals(marker, r, Encode(r.body));
      NumberOldConcat(lines, block, 0);
      NumberOldIdle(lines, 0);
      HighestConcat(lines, NumberOld(block, 0).0);
    }
  }

  lemma HighestAfter(s: LogState, r: Note, written: bool)
    requires Public(r) && Append(s, r, written).1.Posted?
    ensures var lines, marker, s' := Migrate(Current(s)).0, Rendered(s, r), Append(s, r, written).0;
            Highest(s') >= s'.counter && Highest(s') >= HighestMid(lines)
            && (r.marker == "M0" ==> Highest(s') >= HighestMid(Block(marker, r)))
  {
    hide Migrate, Rendered, Block, HighestMid, Highest, Settled, Parse, FindEvent;
    MigrateSettles(Current(s));
    RenderedIsMarker(s, r);
    HighestIs(Append(s, r, written).0);
    HighestStays(Migrate(Current(s)).0, Rendered(s, r), r);
  }

  lemma NumbersBelow(lines: seq<string>)
    ensures forall i, n | 0 <= i < |lines| && n in Mids(lines[i], 0) :: n <= HighestMid(lines)
  {
    forall i, n | 0 <= i < |lines| && n in Mids(lines[i], 0) ensures n <= HighestMid(lines) { HighestOf(lines, i); }
  }

  /**
   A new message gets a number above every number in the log, and however the append ends, the next number will be
   above this one: it does not matter whether the counter was still written.
   */
  lemma FreshNumber(s: LogState, r: Note, written: bool)
    requires Public(r)
    ensures var (s', outcome) := Append(s, r, written);
            && Highest(s') >= Highest(s)
            && (r.marker == "M0" && outcome.Posted? ==>
               outcome.marker == Numbered(Highest(s) + 1) && Highest(s') >= Highest(s) + 1)
    ensures forall i, n | 0 <= i < |Migrate(Current(s)).0| && n in Mids(Migrate(Current(s)).0[i], 0) :: n <= Highest(s)
  {
    hide Migrate, Block, Parse, FindEvent, HighestMid, Highest, Mids, Public;
    var (s', outcome) := Append(s, r, written);
    HighestIs(s);
    NumbersBelow(Migrate(Current(s)).0);
    if outcome.Posted? {
      HighestAfter(s, r, written);
      RenderedIsMarker(s, r);
      NumberedIsMarker(Highest(s) + 1);
      if r.marker == "M0" { BlockHolds(Highest(s) + 1, r); }
    }
  }

  // ---- appending again ----

  lemma {:induction false} FindOnlyIdentity(a: seq<Entry>, b: seq<Entry>, scope: string, r: Note)
    requires Acceptable(r) && |a| == |b|
    requires forall i | 0 <= i < |a| :: a[i].marker == b[i].marker && a[i].meta == b[i].meta
    ensures FindEvent(a, scope, r).None? <==> FindEvent(b, scope, r).None?
  {
    if a != [] { FindOnlyIdentity(a[1..], b[1..], scope, r); }
  }

  lemma {:induction false} FindConcat(a: seq<Entry>, b: seq<Entry>, scope: string, r: Note)
    requires Acceptable(r)
    ensures FindEvent(a + b, scope, r) == if FindEvent(a, scope, r).Some? then FindEvent(a, scope, r)
            else FindEvent(b, scope, r)
  {
    if a == [] {
      assert a + b == b;
    } else {
      assert (a + b)[1..] == a[1..] + b;
      FindConcat(a[1..], b, scope, r);
    }
  }

  lemma ClosedIdentity(sections: seq<(Header, seq<string>)>)
    ensures |ClosedEntries(sections)| == |Entries(sections)|
    ensures forall i | 0 <= i < |sections| ::
              ClosedEntries(sections)[i].marker == Entries(sections)[i].marker
                && ClosedEntries(sections)[i].meta == Entries(sections)[i].meta
  {
    hide Metadata, Decode, DropRule, StripLines;
  }

  lemma FoundAgain(lines: seq<string>, marker: string, r: Note, inner: seq<string>)
    requires Proper(marker, r) && Inert(inner) && FindEvent(Parse(lines), Scope(marker), r).None?
    ensures FindEvent(Parse(lines + Framed(marker, r, inner)), Scope(marker), r) == Some(ReadLast(marker, r, inner))
  {
    ParseAfterFrame(lines, marker, r, inner);
    var sections := Sections(lines, ParseHeader);
    ClosedIdentity(sections);
    FindOnlyIdentity(ClosedEntries(sections), Entries(sections), Scope(marker), r);
    FindConcat(ClosedEntries(sections), [ReadLast(marker, r, inner)], Scope(marker), r);
    ReadLastIsMeant(marker, r, inner);
    assert SameEvent(ReadLast(marker, r, inner), Scope(marker), r);
  }

  /**
   Appending the same note again leaves the log as it is and gives the first marker, but for the bodies that are taken
   for different ones: one that is not trimmed or has a line that looks escaped, one that ends in a bare rule, and, in
   a log without any message, one that hides the time stamp of an old entry.
   */
  lemma AppendAgain(s: LogState, r: Note, written: bool, again: bool)
    requires Readable(r) && Append(s, r, written).1.Posted?
    ensures var (s', outcome) := Append(s, r, written);
            && Append(s', r, again).0 == s'
            && Append(s', r, again).1
               == if !ReadsBack(r.body) || EndsInRule(r.body) || (HidesStamp(r.body) && !HasMid(Current(s')))
                  then Different else Known(outcome.marker)
  {
    hide Migrate, Rendered, Framed, Encode, Taken, HidesStamp, EndsInRule, ReadsBack, Parse, FindEvent, ReadLast,
      Proper;
    hide HasMid, Settled;
    var lines, marker := Migrate(Current(s)).0, Rendered(s, r);
    var s' := Append(s, r, written).0;
    var taken := TakesBody(lines, marker, r);
    PostedText(s, r, written);
    RenderedIsProper(s, r);
    RenderedIsProper(s', r);
    LastCompares(marker, r, taken);
    var inner := if taken then Taken(r.body) else Encode(r.body);
    FoundAgain(lines, marker, r, inner);
    SameMeta(marker, r, inner);
  }

  lemma SameMeta(marker: string, r: Note, inner: seq<string>)
    requires Proper(marker, r)
    ensures ReadLast(marker, r, inner).marker == marker && ReadLast(marker, r, inner).meta.name == r.name
  {
    ReadLastIsMeant(marker, r, inner);
  }

  // ---- runs ----

  /**
   The state after a run of appends from an empty project, and what was posted; `false` marks a lost counter write.
   */
  function Run(steps: seq<(Note, bool)>): (LogState, seq<Appended>) {
    if steps == [] then (LogState(None, 0), [])
    else
      var (s, es) := Run(steps[..|steps| - 1]);
      var step := steps[|steps| - 1];
      var (s', outcome) := Append(s, step.0, step.1);
      (s', if outcome.Posted? then es + [(outcome.marker, step.0)] else es)
  }

  ghost predicate AllPublic(steps: seq<(Note, bool)>) {
    forall i | 0 <= i < |steps| :: Public(steps[i].0)
  }

  ghost predicate AllReadable(steps: seq<(Note, bool)>) {
    forall i | 0 <= i < |steps| :: Readable(steps[i].0)
  }

  /** Message numbers, in the order of posting. */
  ghost predicate Increasing(es: seq<Appended>) {
    forall i, j | 0 <= i < j < |es| && es[i].1.marker == "M0" && es[j].1.marker == "M0" ::
      NumberIn(es[i].0) < NumberIn(es[j].0)
  }

  ghost predicate Below(es: seq<Appended>, bound: int) {
    forall i | 0 <= i < |es| && es[i].1.marker == "M0" :: NumberIn(es[i].0) <= bound
  }

  // ---- which body a log loses ----

  predicate NoMessage(es: seq<Appended>) {
    forall i | 0 <= i < |es| :: !IsMessage(es[i].0)
  }

  /** The first entry that hides a stamp, if no message stands before it: its body is taken for an old entry. */
  function Victim(es: seq<Appended>): (r: Option<nat>)
    ensures r.Some? ==> r.value < |es|
  {
    if es == [] then None
    else
      var front := Victim(es[..|es| - 1]);
      if front.Some? then front
      else if HidesStamp(es[|es| - 1].1.body) && NoMessage(es) then Some(|es| - 1)
      else None
  }

  lemma {:induction false} VictimIs(es: seq<Appended>, j: nat)
    ensures Victim(es) == Some(j) <==>
              && j < |es| && HidesStamp(es[j].1.body) && NoMessage(es[..j + 1])
              && forall i | 0 <= i < j :: !HidesStamp(es[i].1.body)
  {
    if es != [] {
      var n := |es| - 1;
      VictimIs(es[..n], j);
      if j < n {
        assert es[..n][..j + 1] == es[..j + 1];
      } else if j == n {
        assert es[..j + 1] == es;
        VictimBefore(es[..n]);
      }
    }
  }

  lemma {:induction false} VictimBefore(es: seq<Appended>)
    ensures NoMessage(es) ==> (Victim(es).None? <==> forall i | 0 <= i < |es| :: !HidesStamp(es[i].1.body))
  {
    if es != [] { VictimBefore(es[..|es| - 1]); }
  }

  lemma {:induction false} LaterDoesNotMatter(es: seq<Appended>, k: nat)
    requires AllProper(es) && k >= |es|
    ensures LogWith(es, Some(k)) == LogWith(es, None)
  {
    if es != [] { LaterDoesNotMatter(es[..|es| - 1], k); }
  }

  lemma HeaderIsSettled()
    ensures Settled(HEADER) && !HasMid(HEADER)
  {
    assert TITLE[0] == '#' && INTRODUCTION[0] == 'U';
    forall i | 0 <= i < |HEADER| ensures !Starts(HEADER[i]) && MidAt(HEADER[i], 0).None? {
      NoStarStartsNone(HEADER[i]);
    }
    NothingStarts(HEADER, [], 0);
    assert HEADER + [] == HEADER;
    NumberOldNumbers(HEADER, 0);
  }

  lemma NoStarStartsNone(line: string)
    requires line == "" || line[0] != '*'
    ensures !Starts(line) && MidAt(line, 0).None?
  {
    if MidAt(line, 0).Some? { MidsAreTagged(line); }
  }

  predicate LastIsVictim(es: seq<Appended>) {
    Victim(es).Some? && Victim(es).value == |es| - 1
  }

  /** The text of the log file: the body of the last entry is still as it was written. */
  function FileOf(es: seq<Appended>): seq<string>
    requires AllProper(es)
  {
    LogWith(es, if LastIsVictim(es) then None else Victim(es))
  }

  /**
   The log, numbered: it will stay as it is, and has a message marker if a message or a body taken for an old entry is
   in it.
   */
  ghost predicate LogInv(es: seq<Appended>) {
    && AllProper(es)
    && Settled(LogWith(es, Victim(es)))
    && (HasMid(LogWith(es, Victim(es))) <==> !NoMessage(es) || Victim(es).Some?)
  }

  lemma VictimGrows(es: seq<Appended>, marker: string, r: Note)
    ensures var more := es + [(marker, r)];
            && (NoMessage(more) <==> NoMessage(es) && !IsMessage(marker))
            && Victim(more) == if Victim(es).Some? then Victim(es)
                               else if HidesStamp(r.body) && NoMessage(more) then Some(|es|) else None
  {
    var more := es + [(marker, r)];
    assert more[..|es|] == es && more[|es|] == (marker, r);
    if NoMessage(es) && !IsMessage(marker) { assert forall i | 0 <= i < |more| :: !IsMessage(more[i].0); }
    if NoMessage(more) {
      forall i | 0 <= i < |es| ensures !IsMessage(es[i].0) { assert more[i] == es[i]; }
    }
  }

  lemma LogGrows(es: seq<Appended>, marker: string, r: Note, taken: Option<nat>)
    requires AllProper(es) && Proper(marker, r)
    ensures var more := es + [(marker, r)];
            AllProper(more)
            && LogWith(more, taken)
               == LogWith(es, taken) + Framed(marker, r, if taken == Some(|es|) then Taken(r.body) else Encode(r.body))
  {
    var more := es + [(marker, r)];
    assert more[..|more| - 1] == es && more[|es|] == (marker, r);
  }

  /** A posted entry goes behind the numbered log, and may itself be taken when the log is numbered next. */
  lemma OneMoreEntry(es: seq<Appended>, marker: string, r: Note)
    requires LogInv(es) && Proper(marker, r)
    ensures var more := es + [(marker, r)];
            && LogInv(more)
            && FileOf(more) == LogWith(es, Victim(es)) + Block(marker, r)
            && Migrate(FileOf(more)).0 == LogWith(more, Victim(more))
  {
    hide LogWith, Framed, Taken, Encode, HidesStamp, Settled, HasMid, Migrate, Proper, NoMessage, Victim, IsMessage;
    var more := es + [(marker, r)];
    var lines := LogWith(es, Victim(es));
    BodyOf(marker, r);
    VictimGrows(es, marker, r);
    LogGrows(es, marker, r, Victim(es));
    LogGrows(es, marker, r, None);
    LogGrows(es, marker, r, Victim(more));
    LaterDoesNotMatter(es, |es|);
    AppendMigrates(lines, marker, r);
    MigrateSettles(lines + Block(marker, r));
    FramedHasMid(lines, marker, r, TakesBody(lines, marker, r));
    assert TakesBody(lines, marker, r) <==> Victim(more) == Some(|es|);
  }

  lemma FramedHasMid(lines: seq<string>, marker: string, r: Note, taken: bool)
    requires Proper(marker, r) && (taken ==> HidesStamp(r.body))
    ensures HasMid(lines + Framed(marker, r, if taken then Taken(r.body) else Encode(r.body)))
       <==> HasMid(lines) || IsMessage(marker) || taken
  {
    hide Framed, Taken, Encode, HidesStamp, HasMid, Proper;
    var inner := if taken then Taken(r.body) else Encode(r.body);
    BodyOf(marker, r);
    FrameHasMid(marker, r, inner);
    EncodedHasNone(r.body);
    TakenBody(r.body);
    MidAmong(lines, Framed(marker, r, inner));
  }

  lemma BodyOf(marker: string, r: Note)
    requires Proper(marker, r)
    ensures Acceptable(r) && IsMarker(marker) && AreLines(r.body)
  {}

  // ---- what a run leaves ----

  lemma NoEntries()
    ensures LogInv([]) && FileOf([]) == HEADER && Migrate(HEADER).0 == LogWith([], Victim([]))
  {
    HeaderIsSettled();
    SettledStays(HEADER);
  }

  ghost predicate RunInv(s: LogState, es: seq<Appended>) {
    LogInv(es) && Current(s) == FileOf(es) && Migrate(Current(s)).0 == LogWith(es, Victim(es))
  }

  lemma AppendToLog(s: LogState, es: seq<Appended>, r: Note, written: bool)
    requires Readable(r) && RunInv(s, es)
    ensures var (s', outcome) := Append(s, r, written);
            RunInv(s', if outcome.Posted? then es + [(outcome.marker, r)] else es)
  {
    hide Rendered, Block, LogWith, FileOf, LogInv, Migrate, Parse, FindEvent, Readable, Proper;
    RenderedIsProper(s, r);
    OneMoreEntry(es, Rendered(s, r), r);
  }

  lemma {:induction false} RunKeeps(steps: seq<(Note, bool)>)
    requires AllReadable(steps)
    ensures RunInv(Run(steps).0, Run(steps).1)
  {
    if steps == [] {
      NoEntries();
    } else {
      var front, step := steps[..|steps| - 1], steps[|steps| - 1];
      RunKeeps(front);
      AppendToLog(Run(front).0, Run(front).1, step.0, step.1);
    }
  }

  lemma TakenDiffersFromWritten(body: seq<string>)
    requires body != [] && AreLines(body)
    ensures |Taken(body)| == |Encode(body)| && (HidesStamp(body) ==> Taken(body) != Encode(body))
  {
    TakenBody(body);
    EncodedHasNone(body);
  }

  lemma FramesDiffer(a: seq<string>, b: seq<string>, marker: string, r: Note, x: seq<string>, y: seq<string>)
    requires Acceptable(r) && |a| == |b| && |x| == |y|
    ensures |a + Framed(marker, r, x)| == |b + Framed(marker, r, y)|
    ensures a + Framed(marker, r, x) == b + Framed(marker, r, y) <==> a == b && x == y
  {
    hide Tag;
    var p, q := a + Framed(marker, r, x), b + Framed(marker, r, y);
    if p == q {
      assert p[..|a|] == a && q[..|a|] == b;
      assert p[|a| + 4..|p| - 1] == x && q[|a| + 4..|q| - 1] == y;
    }
  }

  lemma {:induction false} LogDiffers(es: seq<Appended>, j: nat)
    requires AllProper(es) && j < |es| && HidesStamp(es[j].1.body)
    ensures LogWith(es, Some(j)) != LogOf(es) && |LogWith(es, Some(j))| == |LogOf(es)|
  {
    hide Framed, Taken, Encode, HidesStamp, Proper;
    var n := |es| - 1;
    var (marker, r) := es[n];
    BodyOf(marker, r);
    TakenDiffersFromWritten(r.body);
    if j < n {
      LogDiffers(es[..n], j);
      FramesDiffer(LogWith(es[..n], Some(j)), LogOf(es[..n]), marker, r, Encode(r.body), Encode(r.body));
    } else {
      LaterDoesNotMatter(es[..n], n);
      FramesDiffer(LogOf(es[..n]), LogOf(es[..n]), marker, r, Taken(r.body), Encode(r.body));
    }
  }

  /** An entry of the log was taken for an old one, and another entry has been posted since. */
  predicate LostOne(es: seq<Appended>) {
    Victim(es).Some? && !LastIsVictim(es)
  }

  lemma VictimHides(es: seq<Appended>)
    ensures Victim(es).Some? ==> HidesStamp(es[Victim(es).value].1.body)
  {
    if Victim(es).Some? { VictimIs(es, Victim(es).value); }
  }

  /**
   In every run, also when counter writes were lost, the log is made of the posted entries as they were written,
   unless one of them was taken for an old entry.
   */
  lemma RunIsLog(steps: seq<(Note, bool)>)
    requires AllReadable(steps)
    ensures var (s, es) := Run(steps);
            AllProper(es) && (Current(s) == LogOf(es) <==> !LostOne(es))
  {
    RunKeeps(steps);
    var es := Run(steps).1;
    VictimHides(es);
    if Victim(es).Some? { LogDiffers(es, Victim(es).value); }
  }

  // ---- parsing the log of a run ----

  /** No two posted entries are the same event. */
  ghost predicate Unrepeated(es: seq<Appended>)
    requires AllProper(es)
  {
    forall i, j | 0 <= i < j < |es| :: !SameEvent(Meant(es[i].0, es[i].1), Scope(es[j].0), es[j].1)
  }

  /**
   In every run the log parses back to what was posted exactly when no entry was taken for an old one, every body is
   trimmed and has no line that looks escaped, and the last does not end in a bare rule.
   */
  lemma RunParsesBack(steps: seq<(Note, bool)>)
    requires AllReadable(steps)
    ensures var (s, es) := Run(steps);
            AllProper(es)
            && (Parse(Current(s)) == AllMeant(es) <==> !LostOne(es) && forall i | 0 <= i < |es| :: IsRead(es, i))
  {
    hide Parse, LogWith, HidesStamp, IsRead, Run, AllMeant;
    RunKeeps(steps);
    var es := Run(steps).1;
    VictimHides(es);
    ParsesToMeant(es, if LastIsVictim(es) then None else Victim(es));
  }

  /** In every run message numbers grow strictly, wherever the program died between its two files. */
  lemma {:induction false} NumbersGrow(steps: seq<(Note, bool)>)
    requires AllPublic(steps)
    ensures var (s, es) := Run(steps); Increasing(es) && Below(es, Highest(s))
  {
    if steps != [] {
      var front, step := steps[..|steps| - 1], steps[|steps| - 1];
      NumbersGrow(front);
      var (s, es) := Run(front);
      FreshNumber(s, step.0, step.1);
      NumberedIsMarker(Highest(s) + 1);
      OneMoreNumber(es, Append(s, step.0, step.1).1, step.0, Highest(s), Highest(Append(s, step.0, step.1).0));
    }
  }

  lemma OneMoreNumber(es: seq<Appended>, outcome: Reply, r: Note, before: nat, after: nat)
    requires Increasing(es) && Below(es, before) && before <= after
    requires outcome.Posted? && r.marker == "M0" ==> NumberIn(outcome.marker) == before + 1 && before + 1 <= after
    ensures var more := if outcome.Posted? then es + [(outcome.marker, r)] else es;
            Increasing(more) && Below(more, after)
  {}

  // ---- repeating any note of a run ----

  lemma {:induction false} FindFirst(entries: seq<Entry>, scope: string, r: Note, i: nat)
    requires Acceptable(r) && i < |entries| && SameEvent(entries[i], scope, r)
    requires forall k | 0 <= k < i :: !SameEvent(entries[k], scope, r)
    ensures FindEvent(entries, scope, r) == Some(entries[i])
  {
    if i > 0 { FindFirst(entries[1..], scope, r, i - 1); }
  }

  lemma {:induction false} FindsNothing(entries: seq<Entry>, scope: string, r: Note)
    requires Acceptable(r) && FindEvent(entries, scope, r).None?
    ensures forall k | 0 <= k < |entries| :: !SameEvent(entries[k], scope, r)
  {
    if entries != [] {
      FindsNothing(entries[1..], scope, r);
      forall k | 0 <= k < |entries| ensures !SameEvent(entries[k], scope, r) {
        if k > 0 { assert entries[k] == entries[1..][k - 1]; }
      }
    }
  }

  lemma StaysUnrepeated(es: seq<Appended>, taken: Option<nat>, marker: string, r: Note)
    requires AllProper(es) && Unrepeated(es) && Proper(marker, r) && Hides(es, taken)
    requires FindEvent(Parse(LogWith(es, taken)), Scope(marker), r).None?
    ensures AllProper(es + [(marker, r)]) && Unrepeated(es + [(marker, r)])
  {
    FindsNothing(Parse(LogWith(es, taken)), Scope(marker), r);
    forall i | 0 <= i < |es| ensures !SameEvent(Meant(es[i].0, es[i].1), Scope(marker), r) {
      ParsedAt(es, taken, i);
      assert !SameEvent(Parse(LogWith(es, taken))[i], Scope(marker), r);
    }
  }

  /** What is known of every posted entry. */
  ghost predicate WellPosted(es: seq<Appended>) {
    && AllProper(es) && Unrepeated(es)
    && forall i | 0 <= i < |es| :: Readable(es[i].1) && Scope(es[i].0) == if es[i].1.marker == "M0" then "M"
       else es[i].1.marker
  }

  lemma PostsWell(s: LogState, es: seq<Appended>, r: Note, written: bool)
    requires Readable(r) && WellPosted(es) && RunInv(s, es)
    ensures var outcome := Append(s, r, written).1;
            WellPosted(if outcome.Posted? then es + [(outcome.marker, r)] else es)
  {
    hide Rendered, Block, LogWith, FileOf, LogInv, Migrate, Parse, FindEvent, SameEvent, Meant, Proper, Victim,
      HidesStamp;
    RenderedIsProper(s, r);
    VictimHides(es);
    if Append(s, r, written).1.Posted? { StaysUnrepeated(es, Victim(es), Rendered(s, r), r); }
  }

  lemma {:induction false} RunIsUnrepeated(steps: seq<(Note, bool)>)
    requires AllReadable(steps)
    ensures WellPosted(Run(steps).1)
  {
    if steps != [] {
      var front, step := steps[..|steps| - 1], steps[|steps| - 1];
      RunIsUnrepeated(front);
      RunKeeps(front);
      PostsWell(Run(front).0, Run(front).1, step.0, step.1);
    }
  }

  lemma FindsItself(es: seq<Appended>, taken: Option<nat>, i: nat)
    requires AllProper(es) && Unrepeated(es) && i < |es| && Hides(es, taken)
    ensures var parsed := Parse(LogWith(es, taken));
            |parsed| == |es| && ReadAt(es, taken, i, parsed[i])
            && FindEvent(parsed, Scope(es[i].0), es[i].1) == Some(parsed[i])
  {
    hide Parse, LogWith, HidesStamp, Scope;
    var (marker, r) := es[i];
    var parsed := Parse(LogWith(es, taken));
    ParsedAt(es, taken, i);
    forall k | 0 <= k < i ensures !SameEvent(parsed[k], Scope(marker), r) {
      ParsedAt(es, taken, k);
      assert !SameEvent(Meant(es[k].0, es[k].1), Scope(es[i].0), es[i].1);
    }
    FindFirst(parsed, Scope(marker), r, i);
  }

  /**
   At any later time in a run, appending a posted note again changes nothing and gives its first marker; it is taken
   for a different note exactly when its body is not trimmed or has a line that looks escaped, while it ends in a bare
   rule and is the last one, or when its body is the one that is taken for an old entry.
   */
  lemma RepeatIsKnown(steps: seq<(Note, bool)>, i: nat, written: bool)
    requires AllReadable(steps) && i < |Run(steps).1|
    ensures var (s, es) := Run(steps);
            Append(s, es[i].1, written)
              == (s, if !IsRead(es, i) || Victim(es) == Some(i) then Different else Known(es[i].0))
  {
    hide Run, Migrate, Parse, LogWith, FileOf, LogInv, Rendered, FindEvent, Victim, HidesStamp, Unrepeated, IsRead,
      Scope;
    var (s, es) := Run(steps);
    RunKeeps(steps);
    RunIsUnrepeated(steps);
    VictimHides(es);
    RenderedIsProper(s, es[i].1);
    FindsItself(es, Victim(es), i);
  }

  // ---- a body that is taken for an old entry ----

  const TWO_LINES := ["**[x", "y UTC]** z"]

  function Event(marker: string, body: seq<string>): Note {
    Note(marker, "claude", "s", "t", body, None, "e")
  }

  lemma TwoLinesHideStamp()
    ensures HidesStamp(TWO_LINES) && ReadsBack(TWO_LINES) && AreLines(TWO_LINES)
  {
    var a, b := TWO_LINES[0], TWO_LINES[1];
    assert a[..3] == "**[" && a[3] == 'x';
    IndexNone(a, ']', 3);
    IndexIs(b, ']', 0, 5);
    assert b[..5] == "y UTC" && b[..5][1..] == " UTC" && b[5..8] == "]**";
    assert HidesStampAt(TWO_LINES, 0, 1);
  }

  lemma TwoLinesIsReadable()
    ensures Readable(Event("T1:note", TWO_LINES)) && !EndsInRule(TWO_LINES)
  {
    TwoLinesHideStamp();
    var m := "T1:note";
    IndexIs(m, ':', 1, 2);
    assert m[1..2] == "1" && m[3..] == "note";
    assert IsMarker(m);
  }

  /** The first event of a project, appended twice, is refused as different content. */
  lemma HiddenStampForgets(written: bool, again: bool)
    ensures var r := Event("T1:note", TWO_LINES);
            var s := Append(LogState(None, 0), r, written).0;
            && Readable(r) && Append(LogState(None, 0), r, written).1 == Posted("T1:note")
            && Append(s, r, again) == (s, Different)
  {
    hide Migrate, Parse, HasMid, Settled, Readable, Acceptable, HidesStamp, EndsInRule, Block, Sections;
    TwoLinesIsReadable();
    TwoLinesHideStamp();
    NoEntries();
    HeaderIsSettled();
    HeaderHasNoEntries();
    FirstIsPosted(Event("T1:note", TWO_LINES), written);
    PostedText(LogState(None, 0), Event("T1:note", TWO_LINES), written);
    AppendAgain(LogState(None, 0), Event("T1:note", TWO_LINES), written, again);
  }

  lemma FirstIsPosted(r: Note, written: bool)
    requires Public(r) && r.marker != "M0"
    ensures Append(LogState(None, 0), r, written).1 == Posted(r.marker)
            && Migrate(Current(LogState(None, 0))).0 == HEADER
  {
    HeaderIsSettled();
    SettledStays(HEADER);
    HeaderHasNoEntries();
  }

  // ---- a body with a line break at its end ----

  /** What a shell hook posts when a gate is done: it ends its text with a line break. */
  const GATE_DONE := ["- [x] a", ""]

  lemma GateIsReadable()
    ensures Readable(Event("G1:5", GATE_DONE)) && !ReadsBack(GATE_DONE)
  {
    var m := "G1:5";
    IndexIs(m, ':', 1, 2);
    assert m[1..2] == "1" && m[3..] == "5";
    assert IsMarker(m);
  }

  /** It is posted, and refused as different content when it is posted again. */
  lemma LineBreakForgets(written: bool, again: bool)
    ensures var r := Event("G1:5", GATE_DONE);
            var s := Append(LogState(None, 0), r, written).0;
            && Readable(r) && Append(LogState(None, 0), r, written).1 == Posted("G1:5")
            && Append(s, r, again) == (s, Different)
  {
    hide Append, Readable, Acceptable, ReadsBack, HidesStamp, EndsInRule;
    GateIsReadable();
    FirstIsPosted(Event("G1:5", GATE_DONE), written);
    AppendAgain(LogState(None, 0), Event("G1:5", GATE_DONE), written, again);
  }
}

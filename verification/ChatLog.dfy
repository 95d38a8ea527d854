/**
 The project chat log: an append-only text of entries under header lines, read back by parsing.  A text is kept as
 its lines.  A second file remembers the highest message number; it is written after the log.
 */
module ChatLog {
  import opened Wrappers
  import opened Text
  import opened ChatText
  import opened ChatHeader
  import opened ChatSections
  import opened Decimal
  import opened SessionTables

  // ---- escaping ----

  function EncodeLine(line: string): string {
    if IsTagged(line) then "\\" + line else line
  }

  predicate IsEscaped(line: string) {
    line != "" && line[0] == '\\' && IsTagged(line[1..])
  }

  function DecodeLine(line: string): string {
    if IsEscaped(line) then line[1..] else line
  }

  function Encode(body: seq<string>): (r: seq<string>)
    ensures |r| == |body|
  {
    seq(|body|, i requires 0 <= i < |body| => EncodeLine(body[i]))
  }

  function Decode(body: seq<string>): (r: seq<string>)
    ensures |r| == |body|
  {
    seq(|body|, i requires 0 <= i < |body| => DecodeLine(body[i]))
  }

  // ---- parsing ----

  datatype Entry = Entry(marker: string, timestamp: string, speaker: string, body: seq<string>, meta: Meta)

  const RULE := "---"

  /** A rule at the end separates the entry from the next one; it is not part of the body. */
  function DropRule(ls: seq<string>): seq<string> {
    if ls != [] && ls[|ls| - 1] == RULE then StripLines(ls[..|ls| - 1]) else ls
  }

  function ReadEntry(h: Header, after: seq<string>): Entry {
    Entry(h.marker, h.timestamp, h.speaker, Decode(DropRule(StripLines(after))), Metadata(h.suffix))
  }

  function Entries(sections: seq<(Header, seq<string>)>): (r: seq<Entry>)
    ensures |r| == |sections|
  {
    seq(|sections|, i requires 0 <= i < |sections| => ReadEntry(sections[i].0, sections[i].1))
  }

  function Parse(lines: seq<string>): seq<Entry> {
    Entries(Sections(lines, ParseHeader))
  }

  /** The program: entries are collected while the headers are passed. */
  method ParseChatEntries(lines: seq<string>) returns (entries: seq<Entry>)
    ensures entries == Parse(lines)
  {
    entries := [];
    ghost var done: seq<(Header, seq<string>)> := [];
    var i := NextHeader(lines, 0, ParseHeader);
    SkipsTo(lines, 0, ParseHeader);
    assert lines[0..] == lines;
    while i < |lines|
      invariant i <= |lines| && (i < |lines| ==> ParseHeader(lines[i]).Some?)
      invariant entries == Entries(done)
      invariant done + Sections(lines[i..], ParseHeader) == Sections(lines, ParseHeader)
    {
      var k := NextHeader(lines, i + 1, ParseHeader);
      SectionAt(lines, i, ParseHeader);
      var h := ParseHeader(lines[i]).value;
      OneMoreSection(done, (h, lines[i + 1..k]), Sections(lines[k..], ParseHeader));
      done := done + [(h, lines[i + 1..k])];
      entries := entries + [ReadEntry(h, lines[i + 1..k])];
      i := k;
    }
    assert done + [] == done;
  }

  lemma OneMoreSection(done: seq<(Header, seq<string>)>, section: (Header, seq<string>),
                       rest: seq<(Header, seq<string>)>)
    ensures Entries(done + [section]) == Entries(done) + [ReadEntry(section.0, section.1)]
    ensures done + ([section] + rest) == (done + [section]) + rest
  {}

  // ---- numbers ----

  function DigitsEnd(line: string, i: nat): (e: nat)
    requires i <= |line|
    ensures i <= e <= |line| && AllDigits(line[i..e]) && (e < |line| ==> !IsDigit(line[e]))
    decreases |line| - i
  {
    if i < |line| && IsDigit(line[i]) then
      var e := DigitsEnd(line, i + 1);
      assert line[i..e] == [line[i]] + line[i + 1..e];
      e
    else i
  }

  /** A message marker at place `i`: its number, and where it ends. */
  function MidAt(line: string, i: nat): Option<(nat, nat)> {
    if !At(line, "**[M", i) then None
    else
      var e := DigitsEnd(line, i + 4);
      if e == i + 4 || !At(line, "]**", e) then None else Some((Value(line[i + 4..e]), e + 3))
  }

  lemma {:induction false} DigitsEndIs(line: string, i: nat, e: nat)
    requires i <= e <= |line| && (forall j | i <= j < e :: IsDigit(line[j])) && (e < |line| ==> !IsDigit(line[e]))
    ensures DigitsEnd(line, i) == e
    decreases e - i
  {
    if i < e { DigitsEndIs(line, i + 1, e); }
  }

  lemma MidFound(line: string, digits: string, e: nat)
    requires IsNumber(digits) && e == 4 + |digits| && At(line, "**[M", 0) && At(line, "]**", e) && line[4..e] == digits
    ensures MidAt(line, 0) == Some((Value(digits), e + 3))
  {
    assert forall j | 4 <= j < e :: line[j] == digits[j - 4];
    AtChar(line, "]**", e, 0);
    DigitsEndIs(line, 4, e);
  }

  lemma MidOfTag(digits: string, rest: string)
    requires IsNumber(digits)
    ensures var line := "**[M" + digits + "]**" + rest; MidAt(line, 0) == Some((Value(digits), 4 + |digits| + 3))
  {
    hide IsNumber, MidAt, DigitsEnd, Value;
    var line, e := "**[M" + digits + "]**" + rest, 4 + |digits|;
    assert line[0..4] == "**[M" && line[4..e] == digits && line[e..e + 3] == "]**";
    MidFound(line, digits, e);
  }

  /** The numbers of all message markers in a line, also inside bodies; a marker uses up its characters. */
  function Mids(line: string, i: nat): seq<nat>
    decreases |line| - i
  {
    if i >= |line| then []
    else match MidAt(line, i)
      case None => Mids(line, i + 1)
      case Some((n, end)) => [n] + Mids(line, end)
  }

  function Max(a: int, b: int): int {
    if a < b then b else a
  }

  function Largest(ns: seq<nat>): nat {
    if ns == [] then 0 else Max(ns[0], Largest(ns[1..]))
  }

  lemma {:induction false} LargestBounds(ns: seq<nat>, n: nat)
    requires n in ns
    ensures n <= Largest(ns)
  {
    if n != ns[0] { LargestBounds(ns[1..], n); }
  }

  function HighestMid(lines: seq<string>): nat {
    if lines == [] then 0 else Max(HighestMid(lines[..|lines| - 1]), Largest(Mids(lines[|lines| - 1], 0)))
  }

  // ---- the oldest entries ----

  /** An entry from before there were numbers: only a time stamp stands in the brackets. */
  function OldStamp(line: string): Option<string> {
    if !("**[" <= line) then None
    else match IndexOf(line, ']', 3)
      case None => None
      case Some(k) => if EndsWith(line[3..k], " UTC") && At(line, "]**", k) then Some(line[3..k]) else None
  }

  function Numbered(n: nat): string {
    "M" + Padded(n, 3)
  }

  function NumberedLine(n: nat, stamp: string, rest: string): string {
    "**[" + Numbered(n) + "]** [" + stamp + "]" + rest
  }

  // The stamp of an old entry may run over several lines: whatever stands between the brackets, up to the first
  // closing one.

  /** The first line with a closing bracket. */
  function NextBracket(lines: seq<string>): (k: nat)
    ensures k <= |lines|
  {
    if lines == [] || IndexOf(lines[0], ']', 0).Some? then 0 else 1 + NextBracket(lines[1..])
  }

  predicate OpensStamp(line: string) {
    "**[" <= line && IndexOf(line, ']', 3).None?
  }

  predicate ClosesStamp(line: string) {
    var k := IndexOf(line, ']', 0);
    k.Some? && EndsWith(line[..k.value], " UTC") && At(line, "]**", k.value)
  }

  /** The last line of the stamp that starts in the first line, if one does. */
  function Span(lines: seq<string>): (r: Option<nat>)
    ensures r.Some? ==> r.value < |lines|
  {
    if lines == [] then None
    else if OldStamp(lines[0]).Some? then Some(0)
    else if !OpensStamp(lines[0]) then None
    else
      var k := 1 + NextBracket(lines[1..]);
      if k < |lines| && ClosesStamp(lines[k]) then Some(k) else None
  }

  function Unclosed(line: string): string
    requires ClosesStamp(line)
  {
    var k := IndexOf(line, ']', 0).value;
    line[..k + 1] + line[k + 3..]
  }

  function NumberedSpan(n: nat, lines: seq<string>): seq<string>
    requires Span(lines).Some?
  {
    var k := Span(lines).value;
    if k == 0 then
      var stamp := OldStamp(lines[0]).value;
      [NumberedLine(n, stamp, lines[0][3 + |stamp| + 3..])]
    else
      ["**[" + Numbered(n) + "]** [" + lines[0][3..]] + lines[1..k] + [Unclosed(lines[k])]
  }

  /** Number the old entries from `n` on; the last number given comes back. */
  function NumberOld(lines: seq<string>, n: nat): (seq<string>, nat)
    decreases |lines|
  {
    if lines == [] then ([], n)
    else match Span(lines)
      case None =>
        var (rest, m) := NumberOld(lines[1..], n);
        ([lines[0]] + rest, m)
      case Some(k) =>
        var (rest, m) := NumberOld(lines[k + 1..], n + 1);
        (NumberedSpan(n + 1, lines) + rest, m)
  }

  function Migrate(lines: seq<string>): (seq<string>, nat) {
    if exists i | 0 <= i < |lines| :: MidAt(lines[i], 0).Some? then (lines, HighestMid(lines)) else NumberOld(lines, 0)
  }

  // ---- appending ----

  const TITLE := "# Project Chat Log"
  const INTRODUCTION := "User messages and" + " sparse Playbook events logged with timestamps."
  const HEADER := [TITLE, "", INTRODUCTION, ""]

  /** The log file, absent at first, and the counter file; an absent or unreadable counter counts as zero. */
  datatype LogState = LogState(log: Option<seq<string>>, counter: int)

  /** What is to be appended; the marker of a new message is M0. */
  datatype Note = Note(marker: string, provider: string, session: string, timestamp: string,
                             body: seq<string>, name: Option<string>, event: string)

  datatype Reply = Posted(marker: string) | Known(marker: string) | Different | Invalid

  predicate Acceptable(r: Note) {
    && IsMarker(r.marker) && r.timestamp != "" && IsLine(r.timestamp)
    && r.body != [] && r.body != [""]
    && (r.name.Some? ==> ValidName(r.name.value)) && ValidEvent(r.event)
    && Canonical(r.provider).Some? && ValidSession(r.session)
  }

  function KeyOf(r: Note): Key
    requires Acceptable(r)
  {
    Key(Canonical(r.provider).value, r.session)
  }

  function Scope(marker: string): string {
    if "M" <= marker then "M" else marker
  }

  predicate SameEvent(e: Entry, scope: string, r: Note)
    requires Acceptable(r)
  {
    && Scope(e.marker) == scope && e.meta.provider == Some(KeyOf(r).provider)
    && e.meta.session == Some(r.session) && e.meta.event == Some(r.event)
  }

  function FindEvent(entries: seq<Entry>, scope: string, r: Note): Option<Entry>
    requires Acceptable(r)
  {
    if entries == [] then None
    else if SameEvent(entries[0], scope, r) then Some(entries[0])
    else FindEvent(entries[1..], scope, r)
  }

  /** An entry with these lines as its escaped body, and the rule before it. */
  function Framed(marker: string, r: Note, inner: seq<string>): seq<string>
    requires Acceptable(r)
  {
    [RULE, ""] + [Tag(marker, r.timestamp, KeyOf(r), r.name, r.event)] + ([""] + inner + [""])
  }

  function Block(marker: string, r: Note): seq<string>
    requires Acceptable(r)
  {
    Framed(marker, r, Encode(r.body))
  }

  function Current(s: LogState): seq<string> {
    if s.log.Some? then s.log.value else HEADER
  }

  function Highest(s: LogState): nat {
    var (lines, migrated) := Migrate(Current(s));
    Max(Max(migrated, s.counter), HighestMid(lines))
  }

  function Rendered(s: LogState, r: Note): string {
    if r.marker == "M0" then Numbered(Highest(s) + 1) else r.marker
  }

  function NumberIn(marker: string): nat {
    if marker != "" && AllDigits(marker[1..]) then Value(marker[1..]) else 0
  }

  /** Without `counterWritten` the program died between its two writes. */
  function Append(s: LogState, r: Note, counterWritten: bool): (LogState, Reply) {
    if !Acceptable(r) then (s, Invalid)
    else
      var lines := Migrate(Current(s)).0;
      var marker := Rendered(s, r);
      match FindEvent(Parse(lines), Scope(marker), r)
      case Some(e) => (s, if e.body != r.body || e.meta.name != r.name then Different else Known(e.marker))
      case None =>
        var counter := if "M" <= marker && counterWritten then NumberIn(marker) else s.counter;
        (LogState(Some(lines + Block(marker, r)), counter), Posted(marker))
  }

  method SearchEvent(entries: seq<Entry>, scope: string, r: Note) returns (found: Option<Entry>)
    requires Acceptable(r)
    ensures found == FindEvent(entries, scope, r)
  {
    var i := 0;
    assert entries[0..] == entries;
    while i < |entries|
      invariant i <= |entries|
      invariant FindEvent(entries[i..], scope, r) == FindEvent(entries, scope, r)
    {
      assert entries[i..][1..] == entries[i + 1..];
      if SameEvent(entries[i], scope, r) {
        return Some(entries[i]);
      }
      i := i + 1;
    }
    found := None;
  }

  /** The log of a project, changed in place. */
  class Log {
    var log: Option<seq<string>>
    var counter: int

    function Contents(): LogState
      reads this
    {
      LogState(log, counter)
    }

    constructor ()
      ensures Contents() == LogState(None, 0)
    {
      log, counter := None, 0;
    }

    method AppendEntry(r: Note, crashes: bool) returns (outcome: Reply)
      modifies this
      ensures (Contents(), outcome) == Append(old(Contents()), r, !crashes)
    {
      if !Acceptable(r) {
        return Invalid;
      }
      var text := if log.Some? then log.value else HEADER;
      var (lines, migrated) := Migrate(text);
      var highest := Max(Max(migrated, counter), HighestMid(lines));
      var marker := if r.marker == "M0" then Numbered(highest + 1) else r.marker;
      var entries := ParseChatEntries(lines);
      var found := SearchEvent(entries, Scope(marker), r);
      if found.Some? {
        return if found.value.body != r.body || found.value.meta.name != r.name then Different
          else Known(found.value.marker);
      }
      log := Some(lines + Block(marker, r));
      if "M" <= marker && !crashes {
        counter := NumberIn(marker);
      }
      outcome := Posted(marker);
    }
  }
}

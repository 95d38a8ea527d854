/**
 Which notes are posted: what tells two events apart, said with marker, provider, session and event key alone.
 */
module ChatPosting {
  import opened Wrappers
  import opened ChatText
  import opened ChatHeader
  import opened ChatLog
  import opened ChatOldEntries
  import opened ChatParsing
  import opened ChatRuns
  import opened SessionTables

  /** All messages are of one kind; any other marker is a kind of its own. */
  predicate SameKind(a: string, b: string) {
    a == b || (a != "" && b != "" && a[0] == 'M' && b[0] == 'M')
  }

  /** The provider under the name it is logged by. */
  predicate LoggedAs(provider: string, name: Option<string>) {
    name == Some(if provider == "agy" then "antigravity" else provider)
  }

  /** The entry is of the same kind as the note, of its conversation, and has its event key. */
  predicate IsEvent(e: Entry, r: Note) {
    SameKind(e.marker, r.marker) && LoggedAs(r.provider, e.meta.provider)
    && e.meta.session == Some(r.session) && e.meta.event == Some(r.event)
  }

  lemma KindIs(a: string, s: LogState, r: Note)
    ensures Scope(a) == Scope(Rendered(s, r)) <==> SameKind(a, r.marker)
  {
    StartsWithM(a);
    StartsWithM(r.marker);
    StartsWithM(Rendered(s, r));
    var n := Highest(s) + 1;
    assert Numbered(n)[0] == 'M' && "M0"[0] == 'M';
  }

  lemma StartsWithM(a: string)
    ensures "M" <= a <==> a != "" && a[0] == 'M'
  {}

  lemma IsSameEvent(e: Entry, s: LogState, r: Note)
    requires Acceptable(r)
    ensures SameEvent(e, Scope(Rendered(s, r)), r) <==> IsEvent(e, r)
  {
    KindIs(e.marker, s, r);
  }

  lemma {:induction false} FindsEvent(entries: seq<Entry>, s: LogState, r: Note)
    requires Acceptable(r)
    ensures FindEvent(entries, Scope(Rendered(s, r)), r).None? <==> forall e | e in entries :: !IsEvent(e, r)
    ensures var found := FindEvent(entries, Scope(Rendered(s, r)), r);
            found.Some? ==> found.value in entries && IsEvent(found.value, r)
  {
    hide Rendered, Scope, SameEvent, IsEvent;
    if entries != [] {
      IsSameEvent(entries[0], s, r);
      FindsEvent(entries[1..], s, r);
      assert forall e :: e in entries <==> e == entries[0] || e in entries[1..];
    }
  }

  /**
   An acceptable note is posted exactly when the numbered log has no entry of its kind, conversation and event key;
   otherwise the log and the counter stay, and the first such entry decides whether it is known or differs.
   */
  lemma PostedIff(s: LogState, r: Note, written: bool)
    requires Acceptable(r)
    ensures var (s', outcome) := Append(s, r, written);
            var entries := Parse(Migrate(Current(s)).0);
            && (outcome.Posted? <==> forall e | e in entries :: !IsEvent(e, r))
            && (!outcome.Posted? ==>
                  s' == s && !outcome.Invalid?
                  && exists e | e in entries :: IsEvent(e, r)
                       && outcome == if e.body == r.body && e.meta.name == r.name then Known(e.marker) else Different)
  {
    hide Rendered, Parse, Migrate, Block, FindEvent, IsEvent;
    FindsEvent(Parse(Migrate(Current(s)).0), s, r);
  }

  /** Letters, digits and these marks, a letter or digit first. */
  predicate IsKey(s: string, most: nat, marks: set<char>) {
    && s != "" && |s| <= most && s[0] !in marks
    && forall i | 0 <= i < |s| ::
         'a' <= s[i] <= 'z' || 'A' <= s[i] <= 'Z' || '0' <= s[i] <= '9' || s[i] in marks
  }

  /**
   A note is invalid exactly when it has no proper marker, no time stamp or one of several lines, no text, a name or an
   event key that is none, or no conversation of a known provider.
   */
  lemma InvalidIff(s: LogState, r: Note, written: bool)
    ensures Append(s, r, written).1.Invalid? <==>
              || !IsMarker(r.marker) || r.timestamp == "" || '\n' in r.timestamp || '\r' in r.timestamp
              || r.body == [] || r.body == [""]
              || (r.name.Some? && !ValidName(r.name.value))
              || !IsKey(r.event, 128, {'.', '_', '-', ':'}) || !IsKey(r.session, 200, {'.', '_', '-'})
              || r.provider !in {"claude", "codex", "agy", "antigravity", "pi", "omp"}
    ensures Append(s, r, written).1.Invalid? ==> Append(s, r, written).0 == s
  {
    hide Parse, Migrate, Block, FindEvent, Rendered, IsMarker, ValidName;
  }

  /**
   What is posted goes behind the numbered log, under a number of its own if it is a message, and under its marker else.
   */
  lemma PostedIs(s: LogState, r: Note, written: bool)
    requires Append(s, r, written).1.Posted?
    ensures Acceptable(r)
    ensures var (s', outcome) := Append(s, r, written);
            && s'.log == Some(Migrate(Current(s)).0 + Block(outcome.marker, r))
            && outcome.marker == (if r.marker == "M0" then Numbered(Highest(s) + 1) else r.marker)
            && (s'.counter == s.counter
                || (written && outcome.marker[0] == 'M' && s'.counter == NumberIn(outcome.marker)))
            && (written && outcome.marker[0] == 'M' ==> s'.counter == NumberIn(outcome.marker))
  {
    hide Parse, Migrate, Block, FindEvent, Highest;
    StartsWithM(Rendered(s, r));
  }

  // ---- over runs ----

  /** The two notes are one event. */
  predicate OneEvent(a: Note, b: Note) {
    a.marker == b.marker && a.session == b.session && a.event == b.event
    && (a.provider == b.provider || (a.provider in {"agy", "antigravity"} && b.provider in {"agy", "antigravity"}))
  }

  lemma OneEventIs(e: Entry, marker: string, a: Note, r: Note)
    requires Readable(a) && Readable(r) && Proper(marker, a)
    requires e.marker == marker && e.meta == Meant(marker, a).meta
    requires Scope(marker) == if a.marker == "M0" then "M" else a.marker
    ensures IsEvent(e, r) <==> OneEvent(a, r)
  {
    StartsWithM(marker);
    StartsWithM(r.marker);
    StartsWithM(a.marker);
  }

  lemma ParsedEvents(es: seq<Appended>, taken: Option<nat>, r: Note)
    requires WellPosted(es) && Readable(r) && Hides(es, taken)
    ensures var parsed := Parse(LogWith(es, taken));
            (exists e | e in parsed :: IsEvent(e, r)) <==> exists i | 0 <= i < |es| :: OneEvent(es[i].1, r)
  {
    hide Parse, LogWith, HidesStamp, Scope, IsEvent, OneEvent, Readable, Unrepeated, Proper;
    var parsed := Parse(LogWith(es, taken));
    if es == [] {
      NothingParsed(taken);
    } else {
      ParsedAt(es, taken, 0);
      forall i | 0 <= i < |es| ensures IsEvent(parsed[i], r) <==> OneEvent(es[i].1, r) {
        ParsedAt(es, taken, i);
        OneEventIs(parsed[i], es[i].0, es[i].1, r);
      }
      if exists i | 0 <= i < |es| :: OneEvent(es[i].1, r) {
        var i :| 0 <= i < |es| && OneEvent(es[i].1, r);
        assert parsed[i] in parsed && IsEvent(parsed[i], r);
      }
    }
  }

  lemma NothingParsed(taken: Option<nat>)
    ensures Parse(LogWith([], taken)) == []
  {
    HeaderHasNoEntries();
  }

  /**
   At any time of a run a note is posted exactly when it differs from every posted note in its kind, its provider, its
   session or its event key; nothing else of it matters.
   */
  lemma NewIsPosted(steps: seq<(Note, bool)>, r: Note, written: bool)
    requires AllReadable(steps) && Readable(r)
    ensures var (s, es) := Run(steps);
            Append(s, r, written).1.Posted? <==> forall i | 0 <= i < |es| :: !OneEvent(es[i].1, r)
  {
    hide Run, Append, Parse, LogWith, FileOf, LogInv, Migrate, HidesStamp, IsEvent, OneEvent, Victim;
    var (s, es) := Run(steps);
    RunKeeps(steps);
    RunIsUnrepeated(steps);
    VictimHides(es);
    ParsedEvents(es, Victim(es), r);
    PostedIff(s, r, written);
  }
}

/** Binding annotated spans to the entries of the chat log, forward only. */
module Narrative {
  import opened Wrappers
  import ChatText

  datatype Entry = Entry(id: string, time: string)

  /** Where a span begins or ends; without a time the first entry with the id will do. */
  datatype Anchor = Anchor(id: string, time: string)

  datatype Ends = Ends(start: Anchor, end: Anchor)

  predicate Matches(e: Entry, a: Anchor) {
    e.id == a.id && (a.time == "" || ChatText.Trim(e.time) == ChatText.Trim(a.time))
  }

  /** The id is the anchor's, and unless the anchor has no time, the time is too, up to blanks around it. */
  predicate SameMoment(e: Entry, a: Anchor) {
    e.id == a.id && (a.time != "" ==> ChatText.Trim(e.time) == ChatText.Trim(a.time))
  }

  ghost predicate FirstMatch(entries: seq<Entry>, a: Anchor, from: nat, i: nat) {
    from <= i < |entries| && SameMoment(entries[i], a) && forall j | from <= j < i :: !SameMoment(entries[j], a)
  }

  function Locate(entries: seq<Entry>, a: Anchor, from: nat): (r: Option<nat>)
    ensures r.Some? ==> FirstMatch(entries, a, from, r.value)
    ensures r.None? ==> forall j | from <= j < |entries| :: !SameMoment(entries[j], a)
    decreases |entries| - from
  {
    if from >= |entries| then None else if Matches(entries[from], a) then Some(from) else Locate(entries, a, from + 1)
  }

  method LocateEntry(entries: seq<Entry>, a: Anchor, from: nat) returns (r: Option<nat>)
    ensures r == Locate(entries, a, from)
  {
    var i := from;
    while i < |entries|
      invariant Locate(entries, a, i) == Locate(entries, a, from)
    {
      if Matches(entries[i], a) {
        return Some(i);
      }
      i := i + 1;
    }
    r := None;
  }

  // ---- binding ----

  type Slice = (nat, nat)

  /** Behind the last span so far. */
  function CursorOf(slices: seq<Slice>): nat {
    if slices == [] then 0 else slices[|slices| - 1].1 + 1
  }

  /** The first and last entry of every span, or the index of the first span that cannot be anchored. */
  function Place(entries: seq<Entry>, spans: seq<Ends>): Result<seq<Slice>, nat> {
    if spans == [] then Ok([])
    else
      var k := |spans| - 1;
      match Place(entries, spans[..k])
      case Err(i) => Err(i)
      case Ok(slices) =>
        match Locate(entries, spans[k].start, CursorOf(slices))
        case None => Err(k)
        case Some(start) =>
          match Locate(entries, spans[k].end, start)
          case None => Err(k)
          case Some(end) => Ok(slices + [(start, end)])
  }

  lemma {:induction false} Stops(entries: seq<Entry>, spans: seq<Ends>, k: nat)
    requires k <= |spans|
    ensures Place(entries, spans[..k]).Err? ==> Place(entries, spans) == Place(entries, spans[..k])
    decreases |spans| - k
  {
    if k < |spans| {
      assert spans[..k + 1][..k] == spans[..k];
      Stops(entries, spans, k + 1);
    } else {
      assert spans[..k] == spans;
    }
  }

  ghost predicate InSome(slices: seq<Slice>, i: nat) {
    exists k | 0 <= k < |slices| :: slices[k].0 <= i <= slices[k].1
  }

  function Indices(from: nat, upto: nat): set<nat>
    decreases upto + 1 - from
  {
    if from > upto then {} else {from} + Indices(from + 1, upto)
  }

  lemma {:induction false} IndicesAre(from: nat, upto: nat)
    ensures forall i :: i in Indices(from, upto) <==> from <= i <= upto
    decreases upto + 1 - from
  {
    if from <= upto { IndicesAre(from + 1, upto); }
  }

  function Covered(slices: seq<Slice>): set<nat> {
    if slices == [] then {}
    else
      var last := slices[|slices| - 1];
      Covered(slices[..|slices| - 1]) + Indices(last.0, last.1)
  }

  /** What is covered is what lies in some span. */
  lemma {:induction false} CoveredIs(slices: seq<Slice>)
    ensures forall i :: i in Covered(slices) <==> InSome(slices, i)
  {
    if slices != [] {
      var front, last := slices[..|slices| - 1], slices[|slices| - 1];
      CoveredIs(front);
      CoveredMore(front, last);
      IndicesAre(last.0, last.1);
      assert slices == front + [last];
    }
  }

  lemma CoveredMore(slices: seq<Slice>, s: Slice)
    ensures forall i: nat :: InSome(slices + [s], i) <==> InSome(slices, i) || s.0 <= i <= s.1
  {
    var all := slices + [s];
    forall i: nat ensures InSome(all, i) <==> InSome(slices, i) || s.0 <= i <= s.1 {
      if InSome(slices, i) {
        var k :| 0 <= k < |slices| && slices[k].0 <= i <= slices[k].1;
        assert all[k] == slices[k];
      }
      if InSome(all, i) {
        var k :| 0 <= k < |all| && all[k].0 <= i <= all[k].1;
        if k < |slices| { assert slices[k] == all[k]; }
      }
      assert all[|slices|] == s;
    }
  }

  /** The entries from `from` up to and without `upto` that are not covered. */
  function Gaps(covered: set<nat>, from: nat, upto: nat): seq<nat>
    decreases upto - from
  {
    if from >= upto then [] else (if from in covered then [] else [from]) + Gaps(covered, from + 1, upto)
  }

  lemma {:induction false} GapsAre(covered: set<nat>, from: nat, upto: nat)
    ensures forall i :: i in Gaps(covered, from, upto) <==> from <= i < upto && i !in covered
    decreases upto - from
  {
    if from < upto { GapsAre(covered, from + 1, upto); }
  }

  /** What is warned about: entries between the first and the last span that no span covers. */
  function Warnings(slices: seq<Slice>): seq<nat> {
    if slices == [] then [] else Gaps(Covered(slices), slices[0].0, slices[|slices| - 1].1 + 1)
  }

  class Span {
    const ends: Ends
    var entries: seq<Entry>

    constructor (ends: Ends)
      ensures this.ends == ends && entries == []
    {
      this.ends, entries := ends, [];
    }
  }

  function EndsOf(spans: seq<Span>): (r: seq<Ends>)
    ensures |r| == |spans|
  {
    seq(|spans|, i requires 0 <= i < |spans| => spans[i].ends)
  }

  /** A span holds the entries of its slice. */
  ghost predicate Holds(span: Span, entries: seq<Entry>, slice: Slice)
    reads span
  {
    slice.0 <= slice.1 < |entries| && span.entries == entries[slice.0..slice.1 + 1]
  }

  /** Where one span is found; it gets its entries. */
  method BindOne(entries: seq<Entry>, span: Span, cursor: nat) returns (r: Option<Slice>)
    modifies span
    ensures match Locate(entries, span.ends.start, cursor)
            case None => r.None?
            case Some(start) =>
              match Locate(entries, span.ends.end, start)
              case None => r.None?
              case Some(end) => r == Some((start, end)) && Holds(span, entries, (start, end))
  {
    var start := LocateEntry(entries, span.ends.start, cursor);
    if start.None? {
      return None;
    }
    var end := LocateEntry(entries, span.ends.end, start.value);
    if end.None? {
      return None;
    }
    span.entries := entries[start.value..end.value + 1];
    r := Some((start.value, end.value));
  }

  lemma OneMoreSpan(slices: seq<Slice>, s: Slice)
    ensures CursorOf(slices + [s]) == s.1 + 1 && Covered(slices + [s]) == Covered(slices) + Indices(s.0, s.1)
  {
    assert (slices + [s])[..|slices|] == slices;
  }

  ghost predicate AllHold(spans: seq<Span>, entries: seq<Entry>, slices: seq<Slice>)
    requires |slices| <= |spans|
    reads spans
  {
    forall k | 0 <= k < |slices| :: Holds(spans[k], entries, slices[k])
  }

  /** What one more span makes of a partial placement. */
  lemma NextSpan(entries: seq<Entry>, ends: seq<Ends>, k: nat, slices: seq<Slice>, found: Option<Slice>)
    requires k < |ends| && Place(entries, ends[..k]) == Ok(slices)
    requires match Locate(entries, ends[k].start, CursorOf(slices))
             case None => found.None?
             case Some(start) =>
               match Locate(entries, ends[k].end, start)
               case None => found.None?
               case Some(end) => found == Some((start, end))
    ensures found.None? ==> Place(entries, ends) == Err(k)
    ensures found.Some? ==> Place(entries, ends[..k + 1]) == Ok(slices + [found.value])
  {
    assert ends[..k + 1][..k] == ends[..k] && ends[..k + 1][k] == ends[k];
    Stops(entries, ends, k + 1);
  }

  /** The loop: spans are bound until one cannot be anchored. */
  method BindAll(entries: seq<Entry>, spans: seq<Span>) returns (k: nat, covered: set<nat>, ghost slices: seq<Slice>)
    requires forall i, j | 0 <= i < j < |spans| :: spans[i] != spans[j]
    modifies spans
    ensures k <= |spans| && |slices| == k
    ensures k < |spans| ==> Place(entries, EndsOf(spans)) == Err(k)
    ensures k == |spans| ==> Place(entries, EndsOf(spans)) == Ok(slices)
    ensures covered == Covered(slices) && AllHold(spans, entries, slices)
  {
    ghost var ends := EndsOf(spans);
    slices := [];
    var cursor := 0;
    covered := {};
    k := 0;
    while k < |spans|
      invariant k <= |spans| && |slices| == k
      invariant Place(entries, ends[..k]) == Ok(slices)
      invariant cursor == CursorOf(slices) && covered == Covered(slices)
      invariant AllHold(spans, entries, slices)
    {
      assert ends[k] == spans[k].ends;
      var found := BindOne(entries, spans[k], cursor);
      NextSpan(entries, ends, k, slices, found);
      if found.None? {
        return;
      }
      OneMoreSpan(slices, found.value);
      covered := covered + Indices(found.value.0, found.value.1);
      slices := slices + [found.value];
      cursor := found.value.1 + 1;
      k := k + 1;
    }
    assert ends[..k] == ends;
  }

  /** The program: a cursor moves forward, and every span gets the entries between its ends. */
  method Bind(entries: seq<Entry>, spans: seq<Span>) returns (r: Result<seq<nat>, nat>)
    requires forall i, j | 0 <= i < j < |spans| :: spans[i] != spans[j]
    modifies spans
    ensures var placed := Place(entries, EndsOf(spans));
            match placed
            case Err(k) => r == Err(k)
            case Ok(slices) => r == Ok(Warnings(slices)) && |slices| == |spans| && AllHold(spans, entries, slices)
  {
    ghost var ends := EndsOf(spans);
    ghost var slices;
    var k, covered;
    k, covered, slices := BindAll(entries, spans);
    if k < |spans| {
      return Err(k);
    }
    ExtremesOf(entries, ends, slices);
    if covered == {} {
      return Ok([]);
    }
    var gaps := InteriorGaps(covered, slices[0].0, slices[k - 1].1);
    r := Ok(gaps);
  }

  /** The smallest and the largest position. */
  method Extremes(s: set<nat>, ghost first: nat, ghost last: nat) returns (lo: nat, hi: nat)
    requires first in s && last in s && forall i | i in s :: first <= i <= last
    ensures lo == first && hi == last
  {
    lo :| lo in s && forall i | i in s :: lo <= i;
    hi :| hi in s && forall i | i in s :: i <= hi;
  }

  method InteriorGaps(covered: set<nat>, ghost first: nat, ghost last: nat) returns (gaps: seq<nat>)
    requires first in covered && last in covered && forall i | i in covered :: first <= i <= last
    ensures gaps == Gaps(covered, first, last + 1)
  {
    var lo, hi := Extremes(covered, first, last);
    gaps := Gaps(covered, lo, hi + 1);
  }

  // ---- what binding gives ----

  /** Spans are non-empty, disjoint and in order. */
  ghost predicate Forward(slices: seq<Slice>, length: nat) {
    && (forall k | 0 <= k < |slices| :: slices[k].0 <= slices[k].1 < length)
    && (forall j, k | 0 <= j < k < |slices| :: slices[j].1 < slices[k].0)
  }

  /** Every span starts at the first match behind the span before, and ends at the first match from its start. */
  ghost predicate Anchored(entries: seq<Entry>, spans: seq<Ends>, slices: seq<Slice>) {
    && |slices| == |spans|
    && forall k | 0 <= k < |spans| ::
         && FirstMatch(entries, spans[k].start, CursorOf(slices[..k]), slices[k].0)
         && FirstMatch(entries, spans[k].end, slices[k].0, slices[k].1)
  }

  lemma {:induction false} SpansAreAnchored(entries: seq<Entry>, spans: seq<Ends>)
    requires Place(entries, spans).Ok?
    ensures Anchored(entries, spans, Place(entries, spans).value)
  {
    if spans != [] {
      var n := |spans| - 1;
      var slices := Place(entries, spans).value;
      var front := Place(entries, spans[..n]).value;
      SpansAreAnchored(entries, spans[..n]);
      assert slices[..n] == front;
      forall k | 0 <= k < n
        ensures FirstMatch(entries, spans[k].start, CursorOf(slices[..k]), slices[k].0)
        ensures FirstMatch(entries, spans[k].end, slices[k].0, slices[k].1)
      {
        assert spans[..n][k] == spans[k] && slices[..k] == front[..k];
      }
    }
  }

  /** A span that is not placed has no first entry behind the span before, or no last entry from its first one on. */
  lemma {:induction false} UnplacedIs(entries: seq<Entry>, spans: seq<Ends>, k: nat)
    requires Place(entries, spans) == Err(k)
    ensures k < |spans| && Place(entries, spans[..k]).Ok?
    ensures var cursor := CursorOf(Place(entries, spans[..k]).value);
            || (forall i | cursor <= i < |entries| :: !SameMoment(entries[i], spans[k].start))
            || exists i: nat :: FirstMatch(entries, spans[k].start, cursor, i)
                                && forall j | i <= j < |entries| :: !SameMoment(entries[j], spans[k].end)
  {
    var n := |spans| - 1;
    if spans != [] && Place(entries, spans[..n]).Err? {
      UnplacedIs(entries, spans[..n], k);
      assert spans[..n][..k] == spans[..k];
    }
  }

  lemma {:induction false} SpansAreForward(entries: seq<Entry>, spans: seq<Ends>)
    requires Place(entries, spans).Ok?
    ensures var slices := Place(entries, spans).value; |slices| == |spans| && Forward(slices, |entries|)
  {
    if spans != [] {
      SpansAreForward(entries, spans[..|spans| - 1]);
    }
  }

  lemma ExtremesOf(entries: seq<Entry>, spans: seq<Ends>, slices: seq<Slice>)
    requires Place(entries, spans) == Ok(slices)
    ensures slices == [] ==> Covered(slices) == {}
    ensures slices != [] ==>
              && (forall i | i in Covered(slices) :: slices[0].0 <= i <= slices[|slices| - 1].1)
              && slices[0].0 in Covered(slices) && slices[|slices| - 1].1 in Covered(slices)
  {
    SpansAreForward(entries, spans);
    CoveredIs(slices);
    if slices != [] {
      var n := |slices| - 1;
      assert slices[0].0 <= slices[0].0 <= slices[0].1 && slices[n].0 <= slices[n].1 <= slices[n].1;
      assert InSome(slices, slices[0].0) && InSome(slices, slices[n].1);
      forall i | i in Covered(slices) ensures slices[0].0 <= i <= slices[n].1 {
        var k :| 0 <= k < |slices| && slices[k].0 <= i <= slices[k].1;
        assert k == 0 || slices[0].1 < slices[k].0;
        assert k == n || slices[k].1 < slices[n].0;
      }
    }
  }

  // ---- the lenient readers ----

  /** Where incremental work starts: spans that cannot be anchored are passed over. */
  function EndAfter(entries: seq<Entry>, spans: seq<Ends>): nat {
    if spans == [] then 0
    else
      var k := |spans| - 1;
      var cursor := EndAfter(entries, spans[..k]);
      match Locate(entries, spans[k].start, cursor)
      case None => cursor
      case Some(start) =>
        var end := Locate(entries, spans[k].end, start);
        (if end.Some? then end.value else start) + 1
  }

  method AnnotatedEnd(entries: seq<Entry>, spans: seq<Ends>) returns (cursor: nat)
    ensures cursor == EndAfter(entries, spans)
  {
    cursor := 0;
    for k := 0 to |spans|
      invariant cursor == EndAfter(entries, spans[..k])
    {
      assert spans[..k + 1][..k] == spans[..k];
      var start := LocateEntry(entries, spans[k].start, cursor);
      if start.Some? {
        var end := LocateEntry(entries, spans[k].end, start.value);
        cursor := (if end.Some? then end.value else start.value) + 1;
      }
    }
    assert spans[..|spans|] == spans;
  }

  /** The first annotated entry. */
  function StartOf(entries: seq<Entry>, spans: seq<Ends>): Option<nat> {
    if spans == [] then None
    else
      var k := |spans| - 1;
      var first := StartOf(entries, spans[..k]);
      if first.Some? then first else Locate(entries, spans[k].start, 0)
  }

  /** The first and the last annotated entry; that the ends are found independently makes no difference. */
  method CoveredBounds(entries: seq<Entry>, spans: seq<Ends>) returns (r: Option<Slice>)
    ensures r.Some? <==> StartOf(entries, spans).Some?
    ensures r.Some? ==> Some(r.value.0) == StartOf(entries, spans) && r.value.1 + 1 == EndAfter(entries, spans)
    ensures r.None? ==> EndAfter(entries, spans) == 0
  {
    var first: Option<nat> := None;
    var cursor := 0;
    for k := 0 to |spans|
      invariant cursor == EndAfter(entries, spans[..k]) && first == StartOf(entries, spans[..k])
      invariant first.None? <==> cursor == 0
    {
      assert spans[..k + 1][..k] == spans[..k];
      var start := LocateEntry(entries, spans[k].start, cursor);
      if start.Some? {
        var end := LocateEntry(entries, spans[k].end, start.value);
        first := if first.None? then start else first;
        cursor := (if end.Some? then end.value else start.value) + 1;
      }
    }
    assert spans[..|spans|] == spans;
    r := if first.None? then None else Some((first.value, cursor - 1));
  }

  /**
   One more span: without a first entry behind the annotated ones it is passed over; else they end with its last entry,
   or with its first one when the last is not found.
   */
  lemma LenientStep(entries: seq<Entry>, spans: seq<Ends>, start: nat, end: nat)
    requires spans != []
    ensures var k := |spans| - 1;
            var cursor := EndAfter(entries, spans[..k]);
            && ((forall i | cursor <= i < |entries| :: !SameMoment(entries[i], spans[k].start)) ==>
                  EndAfter(entries, spans) == cursor)
            && (FirstMatch(entries, spans[k].start, cursor, start) && FirstMatch(entries, spans[k].end, start, end) ==>
                  EndAfter(entries, spans) == end + 1)
            && (FirstMatch(entries, spans[k].start, cursor, start)
                && (forall i | start <= i < |entries| :: !SameMoment(entries[i], spans[k].end)) ==>
                  EndAfter(entries, spans) == start + 1)
  {
    var k := |spans| - 1;
    var cursor := EndAfter(entries, spans[..k]);
    LocateIs(entries, spans[k].start, cursor, start);
    LocateIs(entries, spans[k].end, start, end);
  }

  lemma LocateIs(entries: seq<Entry>, a: Anchor, from: nat, i: nat)
    ensures FirstMatch(entries, a, from, i) <==> Locate(entries, a, from) == Some(i)
  {
    var r := Locate(entries, a, from);
    if FirstMatch(entries, a, from, i) && r.Some? {
      assert r.value <= i && i <= r.value;
    }
  }

  /** When binding succeeds, the lenient readers find the ends of the same spans. */
  lemma {:induction false} ReadersAgree(entries: seq<Entry>, spans: seq<Ends>)
    requires Place(entries, spans).Ok?
    ensures var slices := Place(entries, spans).value;
            && EndAfter(entries, spans) == CursorOf(slices)
            && StartOf(entries, spans) == if slices == [] then None else Some(slices[0].0)
  {
    if spans != [] { ReadersAgree(entries, spans[..|spans| - 1]); }
  }

  // ---- appending to the log ----

  lemma {:induction false} LocateStays(entries: seq<Entry>, more: seq<Entry>, a: Anchor, from: nat)
    requires Locate(entries, a, from).Some?
    ensures Locate(entries + more, a, from) == Locate(entries, a, from)
    decreases |entries| - from
  {
    if !Matches(entries[from], a) { LocateStays(entries, more, a, from + 1); }
  }

  /** Entries that are appended to the log change no span, and so no warning. */
  lemma {:induction false} AppendingKeepsSpans(entries: seq<Entry>, more: seq<Entry>, spans: seq<Ends>)
    requires Place(entries, spans).Ok?
    ensures Place(entries + more, spans) == Place(entries, spans)
  {
    if spans != [] {
      var k := |spans| - 1;
      AppendingKeepsSpans(entries, more, spans[..k]);
      var cursor := CursorOf(Place(entries, spans[..k]).value);
      LocateStays(entries, more, spans[k].start, cursor);
      LocateStays(entries, more, spans[k].end, Locate(entries, spans[k].start, cursor).value);
    }
  }

  /** An entry between two neighbouring spans. */
  ghost predicate Between(slices: seq<Slice>, k: nat, i: nat) {
    k + 1 < |slices| && slices[k].1 < i < slices[k + 1].0
  }

  lemma {:induction false} BetweenTwo(slices: seq<Slice>, i: nat, last: nat)
    requires last < |slices| && slices[0].0 <= i <= slices[last].1 && !InSome(slices, i)
    ensures exists k :: Between(slices, k, i)
    decreases last
  {
    assert slices[last].0 <= i ==> InSome(slices, i);
    assert last > 0;
    if slices[last - 1].1 < i {
      assert Between(slices, last - 1, i);
    } else {
      BetweenTwo(slices, i, last - 1);
    }
  }

  lemma BetweenIsOutside(slices: seq<Slice>, length: nat, k: nat, i: nat)
    requires Forward(slices, length) && Between(slices, k, i)
    ensures !InSome(slices, i) && slices[0].0 <= i <= slices[|slices| - 1].1
  {
    forall j | 0 <= j < |slices| ensures !(slices[j].0 <= i <= slices[j].1) {
      assert j < k ==> slices[j].1 < slices[k].0;
      assert j > k + 1 ==> slices[k + 1].1 < slices[j].0;
    }
    assert k > 0 ==> slices[0].1 < slices[k].0;
    assert k + 1 < |slices| - 1 ==> slices[k + 1].1 < slices[|slices| - 1].0;
  }

  /** The warnings name exactly the entries between two neighbouring spans. */
  lemma WarningsAreGaps(entries: seq<Entry>, spans: seq<Ends>, i: nat)
    requires Place(entries, spans).Ok?
    ensures var slices := Place(entries, spans).value; i in Warnings(slices) <==> exists k :: Between(slices, k, i)
  {
    var slices := Place(entries, spans).value;
    SpansAreForward(entries, spans);
    CoveredIs(slices);
    if slices != [] {
      GapsAre(Covered(slices), slices[0].0, slices[|slices| - 1].1 + 1);
      if i in Warnings(slices) { BetweenTwo(slices, i, |slices| - 1); }
      forall k | Between(slices, k, i) ensures i in Warnings(slices) { BetweenIsOutside(slices, |entries|, k, i); }
    }
  }
}

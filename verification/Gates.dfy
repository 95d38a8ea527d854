/**
 Edits of a task document: gates are closed one at a time, in order.  A document is what its parser finds, its status,
 its sessions, whether it is a monitor board, and its gates.
 */
module Gates {
  import opened Wrappers

  datatype Gate = Gate(checked: bool, text: string, line: nat)

  datatype Document = Document(status: string, sessions: string, monitor: bool, gates: seq<Gate>)

  datatype Closure = Closure(line: nat, before: string, after: string)

  datatype Refusal = AuthorityField | MonitorMarker | SeveralGates | NoOpenGate | SkippedGate | RemovedGate

  function Closed(gates: seq<Gate>): nat {
    if gates == [] then 0 else Closed(gates[..|gates| - 1]) + (if gates[|gates| - 1].checked then 1 else 0)
  }

  function FirstOpen(gates: seq<Gate>, i: nat): (r: Option<nat>)
    requires i <= |gates|
    ensures r.Some? ==>
              i <= r.value < |gates| && !gates[r.value].checked && forall j | i <= j < r.value :: gates[j].checked
    ensures r.None? ==> forall j | i <= j < |gates| :: gates[j].checked
    decreases |gates| - i
  {
    if i == |gates| then None else if !gates[i].checked then Some(i) else FirstOpen(gates, i + 1)
  }

  /** Whether an edit is accepted, and if not, why. */
  function Validate(before: Document, after: Document): Option<Refusal> {
    if after.status != before.status || after.sessions != before.sessions then Some(AuthorityField)
    else if after.monitor != before.monitor then Some(MonitorMarker)
    else if before.monitor then None
    else
      var delta := Closed(after.gates) - Closed(before.gates);
      var first := FirstOpen(before.gates, 0);
      if delta > 1 then Some(SeveralGates)
      else if delta == 1 then
        if first.None? then Some(NoOpenGate)
        else if first.value >= |after.gates| || !after.gates[first.value].checked then Some(SkippedGate)
        else None
      else if first.Some? && |after.gates| < |before.gates|
              && (first.value >= |after.gates| || after.gates[first.value].text != before.gates[first.value].text) then
        Some(RemovedGate)
      else None
  }

  /** The gates of a monitor board that an edit closes. */
  function Closures(before: seq<Gate>, after: seq<Gate>): seq<Closure>
    requires |before| == |after|
  {
    if before == [] then []
    else
      (if !before[0].checked && after[0].checked then [Closure(after[0].line, before[0].text, after[0].text)] else [])
      + Closures(before[1..], after[1..])
  }

  /** The one gate that an accepted edit closes, if it closes one. */
  function GateClosure(before: Document, after: Document): Result<Option<Closure>, Refusal> {
    var refusal := Validate(before, after);
    if refusal.Some? then Err(refusal.value)
    else if before.monitor then
      if |before.gates| != |after.gates| then Ok(None)
      else
        var closures := Closures(before.gates, after.gates);
        Ok(if |closures| == 1 then Some(closures[0]) else None)
    else if Closed(after.gates) - Closed(before.gates) != 1 then Ok(None)
    else
      var i := FirstOpen(before.gates, 0).value;
      Ok(Some(Closure(after.gates[i].line, before.gates[i].text, after.gates[i].text)))
  }

  // ---- which edits are accepted, and what is reported of a monitor board ----

  function ClosedAt(gates: seq<Gate>): set<nat> {
    set i: nat | i < |gates| && gates[i].checked
  }

  ghost predicate IsFirstOpen(gates: seq<Gate>, f: nat) {
    f < |gates| && !gates[f].checked && forall j | 0 <= j < f :: gates[j].checked
  }

  /**
   An edit is accepted exactly when status, sessions and monitor mark stay, and outside monitor boards at most one gate
   more is closed: if one more is, the place of the first open gate has a closed one; if not, and there are less gates,
   the first open one stands where it stood.
   */
  lemma AcceptedIff(before: Document, after: Document)
    ensures var was, now := |ClosedAt(before.gates)|, |ClosedAt(after.gates)|;
            Validate(before, after).None?
            <==> after.status == before.status && after.sessions == before.sessions && after.monitor == before.monitor
                 && (before.monitor
                     || (now <= was + 1
                         && (now == was + 1 ==>
                               exists f: nat ::
                                   IsFirstOpen(before.gates, f) && f < |after.gates| && after.gates[f].checked)
                         && (now <= was && |after.gates| < |before.gates| ==>
                               forall f: nat :: IsFirstOpen(before.gates, f) ==>
                                 f < |after.gates| && after.gates[f].text == before.gates[f].text)))
  {
    ClosedCounts(before.gates);
    ClosedCounts(after.gates);
    var first := FirstOpen(before.gates, 0);
    forall f: nat ensures IsFirstOpen(before.gates, f) <==> first == Some(f) { FirstOpenIs(before.gates, f); }
    if first.Some? { assert IsFirstOpen(before.gates, first.value); }
  }

  lemma FirstOpenIs(gates: seq<Gate>, f: nat)
    ensures IsFirstOpen(gates, f) <==> FirstOpen(gates, 0) == Some(f)
  {
  }

  lemma {:induction false} ClosedCounts(gates: seq<Gate>)
    ensures Closed(gates) == |ClosedAt(gates)|
  {
    if gates != [] {
      var n := |gates| - 1;
      ClosedCounts(gates[..n]);
      assert ClosedAt(gates) == ClosedAt(gates[..n]) + (if gates[n].checked then {n} else {});
    }
  }

  predicate ClosesAt(before: seq<Gate>, after: seq<Gate>, i: nat)
    requires |before| == |after|
  {
    i < |before| && !before[i].checked && after[i].checked
  }

  /** The edit closes this gate and no other. */
  ghost predicate ClosesOnly(before: seq<Gate>, after: seq<Gate>, i: nat)
    requires |before| == |after|
  {
    ClosesAt(before, after, i) && forall j | 0 <= j < |before| :: ClosesAt(before, after, j) ==> j == i
  }

  lemma {:induction false} NoClosures(before: seq<Gate>, after: seq<Gate>)
    requires |before| == |after|
    ensures Closures(before, after) == [] <==> forall i | 0 <= i < |before| :: !ClosesAt(before, after, i)
  {
    if before != [] {
      var b, a := before[1..], after[1..];
      NoClosures(b, a);
      if Closures(before, after) == [] {
        forall i | 0 <= i < |before| ensures !ClosesAt(before, after, i) {
          if i > 0 { assert !ClosesAt(b, a, i - 1); }
        }
      } else if !ClosesAt(before, after, 0) {
        var k :| 0 <= k < |b| && ClosesAt(b, a, k);
        assert ClosesAt(before, after, k + 1);
      }
    }
  }

  /** The gate that is closed is the first one, or the rest says which. */
  lemma OnlyAfter(before: seq<Gate>, after: seq<Gate>, k: nat)
    requires |before| == |after| && before != [] && !ClosesAt(before, after, 0)
    ensures ClosesOnly(before, after, k + 1) <==> ClosesOnly(before[1..], after[1..], k)
  {
    var b, a := before[1..], after[1..];
    if ClosesOnly(before, after, k + 1) {
      forall j | 0 <= j < |b| && ClosesAt(b, a, j) ensures j == k { assert ClosesAt(before, after, j + 1); }
    }
    if ClosesOnly(b, a, k) {
      forall j | 0 <= j < |before| && ClosesAt(before, after, j) ensures j == k + 1 { assert ClosesAt(b, a, j - 1); }
    }
  }

  lemma OnlyFirst(before: seq<Gate>, after: seq<Gate>)
    requires |before| == |after| && before != []
    ensures ClosesOnly(before, after, 0) <==> ClosesAt(before, after, 0) && Closures(before[1..], after[1..]) == []
  {
    var b, a := before[1..], after[1..];
    NoClosures(b, a);
    if ClosesOnly(before, after, 0) {
      forall j | 0 <= j < |b| ensures !ClosesAt(b, a, j) {
        assert ClosesAt(b, a, j) ==> ClosesAt(before, after, j + 1);
      }
    } else if ClosesAt(before, after, 0) {
      var j :| 0 <= j < |before| && ClosesAt(before, after, j) && j != 0;
      assert ClosesAt(b, a, j - 1);
    }
  }

  lemma {:induction false} SoleClosure(before: seq<Gate>, after: seq<Gate>, i: nat)
    requires |before| == |after| && ClosesOnly(before, after, i)
    ensures Closures(before, after) == [Closure(after[i].line, before[i].text, after[i].text)]
  {
    assert ClosesAt(before, after, i);
    hide ClosesOnly;
    if before == [] || (i > 0 && ClosesAt(before, after, 0)) {
      NotOnly(before, after, i);
    } else {
      OnlyFirst(before, after);
      if i > 0 {
        OnlyAfter(before, after, i - 1);
        SoleClosure(before[1..], after[1..], i - 1);
        assert before[1..][i - 1] == before[i] && after[1..][i - 1] == after[i];
      }
    }
  }

  lemma {:induction false} SomeClosure(before: seq<Gate>, after: seq<Gate>) returns (i: nat)
    requires |before| == |after| && |Closures(before, after)| == 1
    ensures ClosesOnly(before, after, i)
  {
    hide ClosesOnly;
    OnlyFirst(before, after);
    if ClosesAt(before, after, 0) {
      i := 0;
    } else {
      var k := SomeClosure(before[1..], after[1..]);
      OnlyAfter(before, after, k);
      i := k + 1;
    }
  }

  lemma NotOnly(before: seq<Gate>, after: seq<Gate>, i: nat)
    requires |before| == |after| && (before == [] || (i > 0 && ClosesAt(before, after, 0)))
    ensures !ClosesOnly(before, after, i)
  {}

  /**
   Of a monitor board that keeps the number of its gates, the one gate is reported that an edit closes, if it is one.
   */
  lemma MonitorReport(before: Document, after: Document, i: nat)
    requires Validate(before, after).None? && before.monitor
    ensures |before.gates| == |after.gates| && ClosesOnly(before.gates, after.gates, i) ==>
              GateClosure(before, after)
              == Ok(Some(Closure(after.gates[i].line, before.gates[i].text, after.gates[i].text)))
    ensures (|before.gates| == |after.gates| ==> forall k: nat :: !ClosesOnly(before.gates, after.gates, k)) ==>
              GateClosure(before, after) == Ok(None)
  {
    hide ClosesOnly;
    if |before.gates| == |after.gates| {
      if ClosesOnly(before.gates, after.gates, i) { SoleClosure(before.gates, after.gates, i); }
      if |Closures(before.gates, after.gates)| == 1 { var k := SomeClosure(before.gates, after.gates); }
    }
  }

  // ---- runs of accepted edits ----

  ghost predicate IsRun(docs: seq<Document>) {
    docs != [] && forall i | 0 <= i < |docs| - 1 :: Validate(docs[i], docs[i + 1]).None?
  }

  /**
   Over any run of accepted edits, status, sessions and the monitor mark stay as they were; outside monitor boards
   every edit closes at most one gate more.
   */
  lemma {:induction false} RunKeepsAuthority(docs: seq<Document>)
    requires IsRun(docs)
    ensures var first, last := docs[0], docs[|docs| - 1];
            && last.status == first.status && last.sessions == first.sessions && last.monitor == first.monitor
            && (!first.monitor ==> Closed(last.gates) <= Closed(first.gates) + |docs| - 1)
  {
    if |docs| > 1 {
      var front := docs[..|docs| - 1];
      RunKeepsAuthority(front);
      assert docs[|docs| - 2] == front[|front| - 1];
      assert Validate(docs[|docs| - 2], docs[|docs| - 2 + 1]).None?;
    }
  }

  // ---- edits that only check boxes ----

  /** Nothing but boxes is changed, and no box is unchecked. */
  ghost predicate OnlyChecks(before: Document, after: Document) {
    && after == before.(gates := after.gates) && |after.gates| == |before.gates|
    && forall i | 0 <= i < |before.gates| ::
         after.gates[i] == before.gates[i].(checked := after.gates[i].checked)
           && (before.gates[i].checked ==> after.gates[i].checked)
  }

  ghost predicate ClosedFirst(gates: seq<Gate>) {
    forall i, j | 0 <= i < j < |gates| && gates[j].checked :: gates[i].checked
  }

  function CheckedAt(gates: seq<Gate>, i: nat): seq<Gate>
    requires i < |gates|
  {
    gates[i := gates[i].(checked := true)]
  }

  lemma {:induction false} ClosedGrows(a: seq<Gate>, b: seq<Gate>)
    requires |a| == |b| && forall i | 0 <= i < |a| :: a[i].checked ==> b[i].checked
    ensures Closed(a) <= Closed(b)
    ensures Closed(a) == Closed(b) ==> forall i | 0 <= i < |a| :: a[i].checked == b[i].checked
  {
    if a != [] { ClosedGrows(a[..|a| - 1], b[..|b| - 1]); }
  }

  lemma {:induction false} ClosedWithOne(gates: seq<Gate>, i: nat)
    requires i < |gates| && !gates[i].checked
    ensures Closed(CheckedAt(gates, i)) == Closed(gates) + 1
  {
    var n := |gates| - 1;
    if i < n {
      assert CheckedAt(gates, i)[..n] == CheckedAt(gates[..n], i);
      ClosedWithOne(gates[..n], i);
    } else {
      assert CheckedAt(gates, i)[..n] == gates[..n];
    }
  }

  /**
   An edit that only checks boxes is accepted exactly when it checks none, or only the first open gate; the closure
   names that gate, and it is never missing.
   */
  lemma ChecksInOrder(before: Document, after: Document)
    requires OnlyChecks(before, after) && !before.monitor
    ensures var first := FirstOpen(before.gates, 0);
            && (Validate(before, after).None?
                <==> after == before || (first.Some? && after.gates == CheckedAt(before.gates, first.value)))
            && (Validate(before, after).None? ==>
                  GateClosure(before, after)
                  == Ok(if after == before then None
                        else Some(Closure(before.gates[first.value].line, before.gates[first.value].text,
                          before.gates[first.value].text))))
  {
    var first := FirstOpen(before.gates, 0);
    ClosedGrows(before.gates, after.gates);
    if Closed(after.gates) == Closed(before.gates) {
      assert after.gates == before.gates;
    } else if first.Some? {
      var one := CheckedAt(before.gates, first.value);
      ClosedWithOne(before.gates, first.value);
      if after.gates[first.value].checked {
        ClosedGrows(one, after.gates);
        if Closed(after.gates) == Closed(one) { assert after.gates == one; }
      }
    }
  }

  lemma OrderStays(gates: seq<Gate>, i: nat)
    requires ClosedFirst(gates) && FirstOpen(gates, 0) == Some(i)
    ensures ClosedFirst(CheckedAt(gates, i)) && Closed(CheckedAt(gates, i)) == Closed(gates) + 1
  {
    ClosedWithOne(gates, i);
  }

  /** Over any run of accepted edits that only check boxes, the closed gates stay the first ones. */
  lemma {:induction false} RunClosesInOrder(docs: seq<Document>)
    requires IsRun(docs) && !docs[0].monitor && ClosedFirst(docs[0].gates)
    requires forall i | 0 <= i < |docs| - 1 :: OnlyChecks(docs[i], docs[i + 1])
    ensures ClosedFirst(docs[|docs| - 1].gates) && !docs[|docs| - 1].monitor
  {
    if |docs| > 1 {
      var front, n := docs[..|docs| - 1], |docs| - 2;
      RunClosesInOrder(front);
      assert docs[n] == front[|front| - 1];
      assert OnlyChecks(docs[n], docs[n + 1]) && Validate(docs[n], docs[n + 1]).None?;
      ChecksInOrder(docs[n], docs[n + 1]);
      if docs[n + 1] != docs[n] { OrderStays(docs[n].gates, FirstOpen(docs[n].gates, 0).value); }
    }
  }

  // ---- edits that uncheck boxes ----

  /** Reopening a gate while another one is closed is accepted, and then the closed gates need not be the first ones. */
  lemma ReopeningSkips()
    ensures var before := Document("active", "", false, [Gate(true, "a", 1), Gate(false, "b", 2), Gate(false, "c", 3)]);
            var after := before.(gates := [Gate(false, "a", 1), Gate(false, "b", 2), Gate(true, "c", 3)]);
            && ClosedFirst(before.gates) && !ClosedFirst(after.gates)
            && Validate(before, after).None? && GateClosure(before, after) == Ok(None)
  {
    var a, b, c := Gate(true, "a", 1), Gate(false, "b", 2), Gate(false, "c", 3);
    var a', c' := Gate(false, "a", 1), Gate(true, "c", 3);
    assert [a, b, c][..2] == [a, b] && [a, b][..1] == [a] && [a][..0] == [];
    assert [a', b, c'][..2] == [a', b] && [a', b][..1] == [a'] && [a'][..0] == [];
    assert Closed([a]) == 1 && Closed([a']) == 0;
    assert Closed([a, b]) == 1 && Closed([a', b]) == 0;
    assert Closed([a, b, c]) == 1 && Closed([a', b, c']) == 1;
    assert [a', b, c'][2].checked && ![a', b, c'][0].checked;
  }

  // ---- which gates an edit closes ----

  /** Where the gates of the document stand after an edit; a gate that is not in the map was removed. */
  ghost predicate Matching(before: seq<Gate>, after: seq<Gate>, moved: map<nat, nat>) {
    && (forall i | i in moved :: i < |before| && moved[i] < |after|)
    && (forall i, j | i in moved && j in moved && moved[i] == moved[j] :: i == j)
  }

  ghost function NewlyClosed(before: seq<Gate>, after: seq<Gate>, moved: map<nat, nat>): set<nat>
    requires Matching(before, after, moved)
  {
    set i | i in moved && !before[i].checked && after[moved[i]].checked
  }

  ghost function Reopened(before: seq<Gate>, after: seq<Gate>, moved: map<nat, nat>): set<nat>
    requires Matching(before, after, moved)
  {
    set i | i in moved && before[i].checked && !after[moved[i]].checked
  }

  /** Closed gates that were removed, and gates that are new and closed. */
  ghost function Lost(before: seq<Gate>, moved: map<nat, nat>): set<nat> {
    set i | i in ClosedAt(before) && i !in moved
  }

  ghost function Added(after: seq<Gate>, moved: map<nat, nat>): set<nat> {
    set j | j in ClosedAt(after) && j !in moved.Values
  }

  ghost function Image(s: set<nat>, moved: map<nat, nat>): set<nat>
    requires s <= moved.Keys
  {
    set i | i in s :: moved[i]
  }

  lemma {:induction false} ImageCounts(s: set<nat>, moved: map<nat, nat>)
    requires s <= moved.Keys && forall i, j | i in moved && j in moved && moved[i] == moved[j] :: i == j
    ensures |Image(s, moved)| == |s|
  {
    if s != {} {
      var x :| x in s;
      ImageCounts(s - {x}, moved);
      assert Image(s, moved) == Image(s - {x}, moved) + {moved[x]};
    }
  }

  lemma Disjoint3(a: set<nat>, b: set<nat>, c: set<nat>)
    requires a !! b && a !! c && b !! c
    ensures |a + b + c| == |a| + |b| + |c|
  {}

  /** Closed gates that stay closed. */
  ghost function StillClosed(before: seq<Gate>, after: seq<Gate>, moved: map<nat, nat>): set<nat>
    requires Matching(before, after, moved)
  {
    set i | i in moved && before[i].checked && after[moved[i]].checked
  }

  lemma ClosedBefore(before: seq<Gate>, after: seq<Gate>, moved: map<nat, nat>)
    requires Matching(before, after, moved)
    ensures var stay, again, lost :=
            StillClosed(before, after, moved), Reopened(before, after, moved), Lost(before, moved);
            ClosedAt(before) == stay + again + lost && stay !! again && stay !! lost && again !! lost
  {}

  lemma BeforeSplits(before: seq<Gate>, after: seq<Gate>, moved: map<nat, nat>)
    requires Matching(before, after, moved)
    ensures |ClosedAt(before)|
         == |StillClosed(before, after, moved)| + |Reopened(before, after, moved)| + |Lost(before, moved)|
  {
    hide *;
    ClosedBefore(before, after, moved);
    Disjoint3(StillClosed(before, after, moved), Reopened(before, after, moved), Lost(before, moved));
  }

  lemma ClosedAfter(before: seq<Gate>, after: seq<Gate>, moved: map<nat, nat>)
    requires Matching(before, after, moved)
    ensures var a, b, added :=
            Image(StillClosed(before, after, moved), moved), Image(NewlyClosed(before, after, moved), moved),
            Added(after, moved);
            ClosedAt(after) == a + b + added && a !! b && a !! added && b !! added
  {
    var stay, now, added := StillClosed(before, after, moved), NewlyClosed(before, after, moved), Added(after, moved);
    var a, b := Image(stay, moved), Image(now, moved);
    forall j | j in ClosedAt(after) ensures j in a + b + added {
      if j in moved.Values {
        var i :| i in moved && moved[i] == j;
        assert i in stay || i in now;
      }
    }
    forall j | j in a + b ensures j in ClosedAt(after) && j in moved.Values {
      var i :| i in stay + now && moved[i] == j;
    }
  }

  lemma AfterSplits(before: seq<Gate>, after: seq<Gate>, moved: map<nat, nat>)
    requires Matching(before, after, moved)
    ensures |ClosedAt(after)|
         == |StillClosed(before, after, moved)| + |NewlyClosed(before, after, moved)| + |Added(after, moved)|
  {
    var stay, now := StillClosed(before, after, moved), NewlyClosed(before, after, moved);
    ClosedAfter(before, after, moved);
    ImageCounts(stay, moved);
    ImageCounts(now, moved);
    hide *;
    Disjoint3(Image(stay, moved), Image(now, moved), Added(after, moved));
  }

  /**
   However the gates were moved, the count goes up by what was closed and added and down by what was reopened and lost.
   */
  lemma CountsBalance(before: seq<Gate>, after: seq<Gate>, moved: map<nat, nat>)
    requires Matching(before, after, moved)
    ensures Closed(after) + |Reopened(before, after, moved)| + |Lost(before, moved)|
         == Closed(before) + |NewlyClosed(before, after, moved)| + |Added(after, moved)|
  {
    hide *;
    ClosedCounts(before);
    ClosedCounts(after);
    BeforeSplits(before, after, moved);
    AfterSplits(before, after, moved);
  }

  /** The gates stand on different lines, as a parser finds them. */
  ghost predicate InOrder(gates: seq<Gate>) {
    forall i, j | 0 <= i < j < |gates| :: gates[i].line < gates[j].line
  }

  /**
   The report says which gates were closed: one, by the line where it now stands, its old text and its new one, and no
   other was; or none if none was.
   */
  ghost predicate Faithful(before: Document, after: Document, moved: map<nat, nat>)
    requires Matching(before.gates, after.gates, moved) && GateClosure(before, after).Ok?
  {
    var now := NewlyClosed(before.gates, after.gates, moved);
    match GateClosure(before, after).value
    case None => now == {}
    case Some(c) =>
      exists i :: now == {i}
        && c == Closure(after.gates[moved[i]].line, before.gates[i].text, after.gates[moved[i]].text)
  }

  /** The gate `j` of the new document was an open one, and was called what the first open gate was called. */
  ghost predicate WasOpen(before: seq<Gate>, moved: map<nat, nat>, j: nat)
    requires j < |before|
  {
    exists i :: i in moved && i < |before| && moved[i] == j && !before[i].checked && before[i].text == before[j].text
  }

  /**
   Exactly when the report of an accepted edit is right: if it names a gate, where the first open gate stood there is
   now a gate that was open under that text; and the edit reopens and removes as many closed gates as it adds, counting
   those by which the number of closed gates went down.
   */
  lemma FaithfulIff(before: Document, after: Document, moved: map<nat, nat>)
    requires Validate(before, after).None? && !before.monitor && Matching(before.gates, after.gates, moved)
    requires InOrder(after.gates)
    ensures var delta := Closed(after.gates) - Closed(before.gates);
            Faithful(before, after, moved) <==>
              && (delta == 1 ==> WasOpen(before.gates, moved, FirstOpen(before.gates, 0).value))
              && |Reopened(before.gates, after.gates, moved)| + |Lost(before.gates, moved)|
                 == |Added(after.gates, moved)| + (if delta < 0 then -delta else 0)
  {
    CountsBalance(before.gates, after.gates, moved);
    var delta := Closed(after.gates) - Closed(before.gates);
    var now := NewlyClosed(before.gates, after.gates, moved);
    if delta == 1 {
      var f := FirstOpen(before.gates, 0).value;
      if Faithful(before, after, moved) {
        var i :| now == {i} && GateClosure(before, after).value
                 == Some(Closure(after.gates[moved[i]].line, before.gates[i].text, after.gates[moved[i]].text));
        assert i in now;
        assert moved[i] == f;
      }
      if WasOpen(before.gates, moved, f) {
        var i :| i in moved && i < |before.gates| && moved[i] == f && !before.gates[i].checked
                 && before.gates[i].text == before.gates[f].text;
        assert i in now;
        if |now| == 1 { OnlyOne(now, i); }
      }
    } else {
      assert |now| == 0 <==> now == {};
    }
  }

  lemma OnlyOne(s: set<nat>, x: nat)
    requires x in s && |s| == 1
    ensures s == {x}
  {
    assert |s - {x}| == 0;
  }

  function Unmoved(n: nat): (r: map<nat, nat>)
    ensures forall i :: i in r <==> 0 <= i < n
    ensures forall i | i in r :: r[i] == i
  {
    if n == 0 then map[] else Unmoved(n - 1)[n - 1 := n - 1]
  }

  /**
   For an edit that keeps the list of gates: the report is right exactly when no more gates are reopened than the count
   went down by.
   */
  lemma NothingUnreported(before: Document, after: Document)
    requires Validate(before, after).None? && !before.monitor && |after.gates| == |before.gates| && InOrder(after.gates)
    ensures var moved, delta := Unmoved(|before.gates|), Closed(after.gates) - Closed(before.gates);
            Matching(before.gates, after.gates, moved)
            && (Faithful(before, after, moved) <==>
                  |Reopened(before.gates, after.gates, moved)| == if delta < 0 then -delta else 0)
  {
    var moved := Unmoved(|before.gates|);
    FaithfulIff(before, after, moved);
    if Closed(after.gates) - Closed(before.gates) == 1 {
      var f := FirstOpen(before.gates, 0).value;
      assert f in moved && moved[f] == f;
    }
    assert Lost(before.gates, moved) == {};
    forall j | j in ClosedAt(after.gates) ensures j in moved.Values { assert moved[j] == j; }
    assert Added(after.gates, moved) == {};
  }

  /**
   A new closed gate in front of the others is taken for the closing of the gate that it pushes down, which is open.
   */
  lemma InsertedGateMisleads()
    ensures var before := Document("active", "", false, [Gate(true, "a", 1), Gate(false, "b", 2)]);
            var after := before.(gates := [Gate(true, "x", 1), Gate(true, "a", 2), Gate(false, "b", 3)]);
            var moved: map<nat, nat> := map[0 := 1, 1 := 2];
            && Validate(before, after).None? && GateClosure(before, after) == Ok(Some(Closure(2, "b", "a")))
            && Matching(before.gates, after.gates, moved) && NewlyClosed(before.gates, after.gates, moved) == {}
            && !Faithful(before, after, moved)
  {
    var a, b := Gate(true, "a", 1), Gate(false, "b", 2);
    var x, a', b' := Gate(true, "x", 1), Gate(true, "a", 2), Gate(false, "b", 3);
    assert [a, b][..1] == [a] && [a][..0] == [];
    assert [x, a', b'][..2] == [x, a'] && [x, a'][..1] == [x] && [x][..0] == [];
    assert Closed([a]) == 1 && Closed([x]) == 1 && Closed([a, b]) == 1;
    assert Closed([x, a']) == 2;
    assert Closed([x, a', b']) == 2;
    var before := Document("active", "", false, [a, b]);
    assert FirstOpen(before.gates, 0) == Some(1);
  }
}

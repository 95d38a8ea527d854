/** Merging JSON entries: what is kept, and when a second merge changes nothing. */
module JsonEntriesProofs {
  import opened Wrappers
  import opened JsonValues
  import opened Lexicographic
  import opened JsonEntries

  // ---- one entry ----

  /** A value that was there is replaced only when it is one of the program's own earlier values. */
  lemma {:induction false} MergeOneSets(doc: Json, path: Path, value: Json, adopt: set<Json>)
    requires doc.Obj? && path != [] && MergeOne(doc, path, value, adopt).Ok?
    ensures var (merged, changed) := MergeOne(doc, path, value, adopt).value;
            && merged.Obj? && ValueAt(merged, path) == Some(value)
            && (changed <==> merged != doc) && (changed <==> ValueAt(doc, path) != Some(value))
    ensures ValueAt(doc, path).None? || ValueAt(doc, path) == Some(value) || ValueAt(doc, path).value in adopt
    decreases |path|
  {
    if |path| == 1 {
      assert path[1..] == [];
    } else {
      var child := if Get(doc, path[0]) == Null then Obj(map[]) else Get(doc, path[0]);
      MergeOneSets(child, path[1..], value, adopt);
    }
  }

  lemma {:induction false} MergeOneKeeps(doc: Json, path: Path, value: Json, adopt: set<Json>, q: Path)
    requires doc.Obj? && path != [] && MergeOne(doc, path, value, adopt).Ok? && Apart(path, q)
    ensures ValueAt(MergeOne(doc, path, value, adopt).value.0, q) == ValueAt(doc, q)
    decreases |path|
  {
    if |path| > 1 && path[0] == q[0] {
      var child := if Get(doc, path[0]) == Null then Obj(map[]) else Get(doc, path[0]);
      assert path == [path[0]] + path[1..] && q == [q[0]] + q[1..];
      assert q[1..] != [];
      MergeOneKeeps(child, path[1..], value, adopt, q[1..]);
      assert ValueAt(Obj(map[]), q[1..]).None?;
      if q[0] in doc.fields && doc.fields[q[0]] == Null { assert ValueAt(Null, q[1..]).None?; }
    } else if |path| == 1 {
      assert path <= q <==> path[0] == q[0];
    }
  }

  lemma {:induction false} MergeOneIdle(doc: Json, path: Path, value: Json, adopt: set<Json>)
    requires doc.Obj? && path != [] && ValueAt(doc, path) == Some(value)
    ensures MergeOne(doc, path, value, adopt) == Ok((doc, false))
    decreases |path|
  {
    if |path| == 1 {
      assert path[1..] == [];
    } else {
      var child := doc.fields[path[0]];
      assert child.Obj? by { assert path[1..] != []; }
      MergeOneIdle(child, path[1..], value, adopt);
      assert doc.fields[path[0] := child] == doc.fields;
    }
  }

  lemma {:induction false} ValueBelow(doc: Json, p: Path, q: Path)
    requires p <= q && ValueAt(doc, p).Some?
    ensures ValueAt(doc, q) == ValueAt(ValueAt(doc, p).value, q[|p|..])
  {
    if p == [] {
      assert q[0..] == q;
    } else {
      ValueBelow(doc.fields[p[0]], p[1..], q[1..]);
      assert q[1..][|p[1..]|..] == q[|p|..];
    }
  }

  // ---- collected entries ----

  /** The places of a list of entries, each with the value wanted there. */
  ghost function Wanted(entries: seq<Entry>): set<(Path, Json)> {
    set e | e in entries :: (e.path, e.value)
  }

  lemma WantedConcat(a: seq<Entry>, b: seq<Entry>)
    ensures Wanted(a + b) == Wanted(a) + Wanted(b)
  {
    forall w | w in Wanted(a) + Wanted(b) ensures w in Wanted(a + b) {
      if w in Wanted(a) {
        var e :| e in a && w == (e.path, e.value);
        assert e in a + b;
      } else {
        var e :| e in b && w == (e.path, e.value);
        assert e in a + b;
      }
    }
  }

  lemma WantedOne(e: Entry)
    ensures Wanted([e]) == {(e.path, e.value)}
  {
    assert e in [e];
  }

  lemma {:induction false} InsertedWants(seen: seq<Entry>, e: Entry)
    requires Insert(seen, e).Ok?
    ensures Wanted(Insert(seen, e).value) == Wanted(seen) + {(e.path, e.value)}
  {
    WantedOne(e);
    if seen != [] {
      assert seen == [seen[0]] + seen[1..];
      WantedConcat([seen[0]], seen[1..]);
      WantedOne(seen[0]);
      if seen[0].path == e.path {
        var head := seen[0].(adopt := seen[0].adopt + e.adopt);
        WantedOne(head);
        WantedConcat([head], seen[1..]);
      } else if Less(e.path, seen[0].path) {
        WantedConcat([e], seen);
      } else {
        InsertedWants(seen[1..], e);
        WantedConcat([seen[0]], Insert(seen[1..], e).value);
      }
    }
  }

  ghost predicate Behind(p: Path, seen: seq<Entry>) {
    forall i | 0 <= i < |seen| :: Less(p, seen[i].path)
  }

  lemma {:induction false} InsertedBehind(seen: seq<Entry>, e: Entry, p: Path)
    requires Behind(p, seen) && Less(p, e.path) && Insert(seen, e).Ok?
    ensures Behind(p, Insert(seen, e).value)
  {
    if seen != [] && seen[0].path != e.path && !Less(e.path, seen[0].path) {
      assert Behind(p, seen[1..]);
      InsertedBehind(seen[1..], e, p);
    }
  }

  lemma {:induction false} InsertedSorts(seen: seq<Entry>, e: Entry)
    requires Sorted(seen) && Insert(seen, e).Ok?
    ensures Sorted(Insert(seen, e).value)
  {
    if seen != [] && seen[0].path != e.path {
      if Less(e.path, seen[0].path) {
        forall i | 0 <= i < |seen| ensures Less(e.path, seen[i].path) {
          if i > 0 { Transitive(e.path, seen[0].path, seen[i].path); }
        }
      } else {
        InsertedSorts(seen[1..], e);
        Total(e.path, seen[0].path);
        InsertedBehind(seen[1..], e, seen[0].path);
      }
    }
  }

  lemma {:induction false} Collected(entries: seq<Entry>)
    requires Collect(entries).Ok?
    ensures Sorted(Collect(entries).value) && Wanted(Collect(entries).value) == Wanted(entries)
  {
    if entries != [] {
      var rest, last := entries[..|entries| - 1], entries[|entries| - 1];
      Collected(rest);
      InsertedSorts(Collect(rest).value, last);
      InsertedWants(Collect(rest).value, last);
      assert entries == rest + [last];
      WantedConcat(rest, [last]);
      WantedOne(last);
    }
  }

  // ---- all entries ----

  ghost predicate AllSet(doc: Json, wanted: set<(Path, Json)>) {
    forall w | w in wanted :: ValueAt(doc, w.0) == Some(w.1)
  }

  /** An entry above another one asks for the same value at the lower place. */
  ghost predicate Agree(wanted: set<(Path, Json)>) {
    forall v, w | v in wanted && w in wanted && v.0 <= w.0 :: ValueAt(v.1, w.0[|v.0|..]) == Some(w.1)
  }

  lemma WantedLast(seen: seq<Entry>)
    requires seen != []
    ensures var last := seen[|seen| - 1]; Wanted(seen) == Wanted(seen[..|seen| - 1]) + {(last.path, last.value)}
  {
    assert seen == seen[..|seen| - 1] + [seen[|seen| - 1]];
    WantedConcat(seen[..|seen| - 1], [seen[|seen| - 1]]);
    WantedOne(seen[|seen| - 1]);
  }

  lemma {:induction false} UnchangedIsSet(doc: Json, seen: seq<Entry>)
    requires doc.Obj? && forall e | e in seen :: e.path != []
    ensures MergeAll(doc, seen) == Ok((doc, false)) <==> AllSet(doc, Wanted(seen))
    ensures MergeAll(doc, seen).Ok? && !MergeAll(doc, seen).value.1 ==> MergeAll(doc, seen).value.0 == doc
  {
    if seen != [] {
      var rest, last := seen[..|seen| - 1], seen[|seen| - 1];
      UnchangedIsSet(doc, rest);
      WantedLast(seen);
      if MergeAll(doc, rest).Ok? {
        var before := MergeAll(doc, rest).value.0;
        if MergeOne(before, last.path, last.value, last.adopt).Ok? {
          MergeOneSets(before, last.path, last.value, last.adopt);
        }
        if ValueAt(doc, last.path) == Some(last.value) { MergeOneIdle(doc, last.path, last.value, last.adopt); }
      }
    }
  }

  lemma {:induction false} AgreeingAreSet(doc: Json, seen: seq<Entry>)
    requires doc.Obj? && (forall e | e in seen :: e.path != []) && Sorted(seen) && Agree(Wanted(seen))
    requires MergeAll(doc, seen).Ok?
    ensures AllSet(MergeAll(doc, seen).value.0, Wanted(seen))
  {
    if seen != [] {
      var rest, last := seen[..|seen| - 1], seen[|seen| - 1];
      WantedLast(seen);
      AgreeingAreSet(doc, rest);
      var before := MergeAll(doc, rest).value.0;
      MergeOneSets(before, last.path, last.value, last.adopt);
      forall w | w in Wanted(rest) ensures ValueAt(MergeAll(doc, seen).value.0, w.0) == Some(w.1) {
        EarlierStays(seen, before, last, w);
      }
    }
  }

  lemma EarlierStays(seen: seq<Entry>, before: Json, last: Entry, w: (Path, Json))
    requires seen != [] && last == seen[|seen| - 1] && last.path != [] && Sorted(seen) && Agree(Wanted(seen))
    requires w in Wanted(seen[..|seen| - 1]) && before.Obj? && ValueAt(before, w.0) == Some(w.1)
    requires MergeOne(before, last.path, last.value, last.adopt).Ok?
    ensures ValueAt(MergeOne(before, last.path, last.value, last.adopt).value.0, w.0) == Some(w.1)
  {
    var e :| e in seen[..|seen| - 1] && w == (e.path, e.value);
    var i :| 0 <= i < |seen| - 1 && seen[i] == e;
    NotAbove(seen[i].path, last.path);
    WantedLast(seen);
    MergeOneSets(before, last.path, last.value, last.adopt);
    if w.0 <= last.path {
      ValueBelow(before, w.0, last.path);
    } else {
      MergeOneKeeps(before, last.path, last.value, last.adopt, w.0);
    }
  }

  lemma NotAbove(p: Path, q: Path)
    requires Less(p, q)
    ensures !(q <= p)
  {
    Irreflexive(p);
    Total(p, q);
    if q <= p && q != p { PrefixFirst(q, p); }
  }

  lemma SetAgree(doc: Json, wanted: set<(Path, Json)>)
    requires AllSet(doc, wanted)
    ensures Agree(wanted)
  {
    forall v, w | v in wanted && w in wanted && v.0 <= w.0 ensures ValueAt(v.1, w.0[|v.0|..]) == Some(w.1) {
      ValueBelow(doc, v.0, w.0);
    }
  }

  // ---- the merge ----

  /**
   Merging again changes nothing exactly when every entry that lies above another one agrees with it; in
   particular when no entry lies above another one.
   */
  lemma MergeIsIdempotent(doc: Json, entries: seq<Entry>)
    requires doc.Obj? && Merge(doc, entries).Ok?
    ensures var merged := Merge(doc, entries).value.0;
            merged.Obj? && (Merge(merged, entries) == Ok((merged, false)) <==> Agree(Wanted(entries)))
  {
    var seen := Collect(entries).value;
    CollectKeepsPaths(entries);
    Collected(entries);
    var merged := MergeAll(doc, seen).value.0;
    UnchangedIsSet(merged, seen);
    if Agree(Wanted(seen)) { AgreeingAreSet(doc, seen); }
    if AllSet(merged, Wanted(seen)) { SetAgree(merged, Wanted(seen)); }
  }

  /** Then every entry is found at its place, and the flag says whether the document is another one. */
  lemma MergeSetsEntries(doc: Json, entries: seq<Entry>)
    requires doc.Obj? && Merge(doc, entries).Ok? && Agree(Wanted(entries))
    ensures var (merged, changed) := Merge(doc, entries).value;
            AllSet(merged, Wanted(entries)) && (changed <==> merged != doc)
  {
    var seen := Collect(entries).value;
    CollectKeepsPaths(entries);
    Collected(entries);
    AgreeingAreSet(doc, seen);
    UnchangedIsSet(doc, seen);
  }

  lemma {:induction false} MergeAllKeeps(doc: Json, seen: seq<Entry>, q: Path)
    requires doc.Obj? && (forall e | e in seen :: e.path != [] && Apart(e.path, q)) && MergeAll(doc, seen).Ok?
    ensures ValueAt(MergeAll(doc, seen).value.0, q) == ValueAt(doc, q)
  {
    if seen != [] {
      var rest, last := seen[..|seen| - 1], seen[|seen| - 1];
      MergeAllKeeps(doc, rest, q);
      MergeOneKeeps(MergeAll(doc, rest).value.0, last.path, last.value, last.adopt, q);
    }
  }

  /** Everything of the user's that is on the way to no entry, and below none, is kept. */
  lemma MergeKeepsTheRest(doc: Json, entries: seq<Entry>, q: Path)
    requires doc.Obj? && Merge(doc, entries).Ok? && forall w | w in Wanted(entries) :: Apart(w.0, q)
    ensures ValueAt(Merge(doc, entries).value.0, q) == ValueAt(doc, q)
  {
    CollectKeepsPaths(entries);
    Collected(entries);
    var seen := Collect(entries).value;
    forall e | e in seen ensures Apart(e.path, q) {
      assert (e.path, e.value) in Wanted(seen);
    }
    MergeAllKeeps(doc, seen, q);
  }

  const ABOVE := Entry(["a"], Obj(map[]), {})
  const BELOW := Entry(["a", "b"], Num(1), {})

  lemma DisagreeingMerge()
    ensures Merge(Obj(map[]), [ABOVE, BELOW]).Ok?
  {
    assert [ABOVE, BELOW][..1] == [ABOVE] && [ABOVE][..0] == [];
    assert Collect([ABOVE]) == Ok([ABOVE]);
    assert [ABOVE][1..] == [];
    assert !Less(BELOW.path, ABOVE.path) by {
      PrefixFirst(ABOVE.path, BELOW.path);
      Total(ABOVE.path, BELOW.path);
    }
    assert Insert([ABOVE][1..], BELOW) == Ok([BELOW]);
    assert ABOVE.path != BELOW.path by { assert |ABOVE.path| != |BELOW.path|; }
    assert [ABOVE] + [BELOW] == [ABOVE, BELOW];
    assert BELOW.path[1..] == ["b"] && ABOVE.path[1..] == [];
    assert Insert([ABOVE], BELOW) == Ok([ABOVE, BELOW]);
    var one := Obj(map["a" := Obj(map[])]);
    assert MergeAll(Obj(map[]), [ABOVE]) == Ok((one, true));
    assert MergeOne(Obj(map[]), ["b"], Num(1), {}).Ok?;
    assert MergeOne(one, BELOW.path, Num(1), {}).Ok?;
  }

  /** Two entries that disagree are accepted once; merging the result again is refused or changes it. */
  lemma DisagreeingEntries()
    ensures Merge(Obj(map[]), [ABOVE, BELOW]).Ok?
    ensures var merged := Merge(Obj(map[]), [ABOVE, BELOW]).value.0;
            merged.Obj? && Merge(merged, [ABOVE, BELOW]) != Ok((merged, false))
  {
    DisagreeingMerge();
    MergeIsIdempotent(Obj(map[]), [ABOVE, BELOW]);
    assert ABOVE in [ABOVE, BELOW] && BELOW in [ABOVE, BELOW];
    var v, w := (ABOVE.path, ABOVE.value), (BELOW.path, BELOW.value);
    assert v in Wanted([ABOVE, BELOW]) && w in Wanted([ABOVE, BELOW]);
    assert v.0 <= w.0 && w.0[1..] == ["b"];
  }
}

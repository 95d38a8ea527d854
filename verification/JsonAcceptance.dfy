/**
 Which entries a shared JSON file takes: the way to their places leads through objects, and what stands there is the
 value already or an earlier one of the program's own.
 */
module JsonAcceptance {
  import opened Wrappers
  import opened JsonValues
  import opened Lexicographic
  import opened JsonEntries
  import opened JsonEntriesProofs

  /** Nothing but objects, nulls and gaps on the way. */
  ghost predicate OnTheWay(doc: Json, path: Path) {
    forall k | 0 < k < |path| ::
      ValueAt(doc, path[..k]).None? || ValueAt(doc, path[..k]).value.Null? || ValueAt(doc, path[..k]).value.Obj?
  }

  /** The place is free, or has the value, or has a value of the program's own. */
  ghost predicate Takes(doc: Json, path: Path, value: Json, adopt: set<Json>) {
    && OnTheWay(doc, path)
    && (ValueAt(doc, path).None? || ValueAt(doc, path) == Some(value) || ValueAt(doc, path).value in adopt)
  }

  lemma ValueBehind(doc: Json, path: Path, k: nat)
    requires doc.Obj? && 0 < k <= |path|
    ensures ValueAt(doc, path[..k])
         == if path[0] in doc.fields then ValueAt(doc.fields[path[0]], path[1..][..k - 1]) else None
  {
    assert path[..k][1..] == path[1..][..k - 1];
  }

  lemma NothingBelowNull(path: Path)
    ensures ValueAt(Null, path) == if path == [] then Some(Null) else None
    ensures ValueAt(Obj(map[]), path) == if path == [] then Some(Obj(map[])) else None
  {}

  lemma WayDown(doc: Json, path: Path, child: Json)
    requires doc.Obj? && |path| > 1
    requires child == if Get(doc, path[0]) == Null then Obj(map[]) else Get(doc, path[0])
    ensures OnTheWay(doc, path) <==> child.Obj? && OnTheWay(child, path[1..])
    ensures child.Obj? ==> ValueAt(doc, path) == ValueAt(child, path[1..])
  {
    ValueBehind(doc, path, 1);
    assert path[1..][..0] == [] && path[..|path|] == path && path[1..][..|path| - 1] == path[1..];
    ValueBehind(doc, path, |path|);
    NothingBelowNull(path[1..]);
    forall k | 0 < k < |path| - 1
      ensures child.Obj? && path[0] in doc.fields && doc.fields[path[0]].Obj? ==>
                ValueAt(doc, path[..k + 1]) == ValueAt(child, path[1..][..k]) {
      ValueBehind(doc, path, k + 1);
    }
    forall k | 0 < k < |path| - 1 ensures ValueAt(Obj(map[]), path[1..][..k]).None? {
      NothingBelowNull(path[1..][..k]);
    }
    forall k | 0 < k < |path| && Get(doc, path[0]) == Null
      ensures ValueAt(doc, path[..k]).None? || ValueAt(doc, path[..k]).value.Null? {
      ValueBehind(doc, path, k);
      NothingBelowNull(path[1..][..k - 1]);
    }
    if child.Obj? && child != Obj(map[]) { WayOfObject(doc, path); }
  }

  lemma WayOfObject(doc: Json, path: Path)
    requires doc.Obj? && |path| > 1 && path[0] in doc.fields && doc.fields[path[0]].Obj?
    ensures OnTheWay(doc, path) <==> OnTheWay(doc.fields[path[0]], path[1..])
  {
    var child := doc.fields[path[0]];
    forall k | 1 <= k < |path| ensures ValueAt(doc, path[..k]) == ValueAt(child, path[1..][..k - 1]) {
      ValueBehind(doc, path, k);
    }
    if OnTheWay(doc, path) {
      forall k | 0 < k < |path[1..]|
        ensures ValueAt(child, path[1..][..k]).None? || ValueAt(child, path[1..][..k]).value.Null?
                || ValueAt(child, path[1..][..k]).value.Obj? {
        assert ValueAt(doc, path[..k + 1]) == ValueAt(child, path[1..][..k + 1 - 1]);
      }
    }
    assert path[1..][..0] == [];
  }

  /** One value is set exactly when its place takes it. */
  lemma {:induction false} MergeOneIff(doc: Json, path: Path, value: Json, adopt: set<Json>)
    requires doc.Obj? && path != []
    ensures MergeOne(doc, path, value, adopt).Ok? <==> Takes(doc, path, value, adopt)
    decreases |path|
  {
    if |path| == 1 {
      assert path[1..] == [];
      assert ValueAt(doc, path) == if path[0] in doc.fields then Some(doc.fields[path[0]]) else None;
    } else {
      var child := if Get(doc, path[0]) == Null then Obj(map[]) else Get(doc, path[0]);
      WayDown(doc, path, child);
      if child.Obj? { MergeOneIff(child, path[1..], value, adopt); }
    }
  }

  // ---- several entries ----

  /** A place that lies apart from one that is set takes what it took before. */
  lemma {:induction false} WayIsMade(doc: Json, path: Path, value: Json, adopt: set<Json>, k: nat)
    requires doc.Obj? && 0 < k < |path| && MergeOne(doc, path, value, adopt).Ok?
    ensures var v := ValueAt(MergeOne(doc, path, value, adopt).value.0, path[..k]); v.Some? && v.value.Obj?
    decreases |path|
  {
    var child := if Get(doc, path[0]) == Null then Obj(map[]) else Get(doc, path[0]);
    var merged := MergeOne(doc, path, value, adopt).value.0;
    ValueBehind(merged, path, k);
    MergeOneSets(child, path[1..], value, adopt);
    if k == 1 {
      assert path[1..][..0] == [];
    } else {
      WayIsMade(child, path[1..], value, adopt, k - 1);
    }
  }

  lemma StillTakes(doc: Json, path: Path, value: Json, adopt: set<Json>, q: Path, v: Json, own: set<Json>)
    requires doc.Obj? && path != [] && MergeOne(doc, path, value, adopt).Ok? && Apart(path, q)
    ensures var merged := MergeOne(doc, path, value, adopt).value.0;
            Takes(merged, q, v, own) <==> Takes(doc, q, v, own)
  {
    var merged := MergeOne(doc, path, value, adopt).value.0;
    MergeOneIff(doc, path, value, adopt);
    MergeOneKeeps(doc, path, value, adopt, q);
    forall k | 0 < k < |q|
      ensures Apart(path, q[..k]) || (k < |path| && q[..k] == path[..k])
      ensures Apart(path, q[..k]) ==> ValueAt(merged, q[..k]) == ValueAt(doc, q[..k]) {
      if Apart(path, q[..k]) { MergeOneKeeps(doc, path, value, adopt, q[..k]); }
    }
    forall k | 0 < k < |path| ensures ValueAt(merged, path[..k]).Some? && ValueAt(merged, path[..k]).value.Obj? {
      WayIsMade(doc, path, value, adopt, k);
    }
  }

  ghost predicate AllApart(seen: seq<Entry>) {
    forall i, j | 0 <= i < j < |seen| :: Apart(seen[i].path, seen[j].path)
  }

  /** Entries at places that lie apart are all set exactly when each place takes its value. */
  lemma {:induction false} MergeAllIff(doc: Json, seen: seq<Entry>, q: Path, v: Json, own: set<Json>)
    requires doc.Obj? && (forall e | e in seen :: e.path != []) && AllApart(seen)
    ensures MergeAll(doc, seen).Ok? <==> forall e | e in seen :: Takes(doc, e.path, e.value, e.adopt)
    ensures MergeAll(doc, seen).Ok? && (forall e | e in seen :: Apart(e.path, q)) ==>
              (Takes(MergeAll(doc, seen).value.0, q, v, own) <==> Takes(doc, q, v, own))
  {
    hide Takes;
    if seen != [] {
      var rest, last := seen[..|seen| - 1], seen[|seen| - 1];
      assert forall e :: e in seen <==> e in rest || e == last;
      MergeAllIff(doc, rest, last.path, last.value, last.adopt);
      MergeAllIff(doc, rest, q, v, own);
      forall e | e in rest ensures Apart(e.path, last.path) {
        var i :| 0 <= i < |rest| && rest[i] == e;
        assert Apart(seen[i].path, seen[|seen| - 1].path);
      }
      if MergeAll(doc, rest).Ok? {
        var before := MergeAll(doc, rest).value.0;
        MergeOneIff(before, last.path, last.value, last.adopt);
        if MergeOne(before, last.path, last.value, last.adopt).Ok? && Apart(last.path, q) {
          StillTakes(before, last.path, last.value, last.adopt, q, v, own);
        }
      }
    }
  }

  // ---- the entries as they are contributed ----

  /** Every earlier value of the program's own at this place, whoever contributed it. */
  ghost predicate MayAdopt(entries: seq<Entry>, path: Path, v: Json) {
    exists e | e in entries :: e.path == path && v in e.adopt
  }

  /** Each place is a proper one, and is asked to have one value. */
  ghost predicate Consistent(entries: seq<Entry>) {
    && (forall e | e in entries :: e.path != [] && "" !in e.path)
    && (forall e, f | e in entries && f in entries && e.path == f.path :: e.value == f.value)
  }

  lemma {:induction false} InsertIff(seen: seq<Entry>, e: Entry)
    requires Sorted(seen)
    ensures Insert(seen, e).Ok? <==> forall s | s in seen && s.path == e.path :: s.value == e.value
  {
    if seen != [] {
      assert forall s :: s in seen <==> s == seen[0] || s in seen[1..];
      if seen[0].path != e.path && Less(e.path, seen[0].path) {
        forall i | 0 <= i < |seen| ensures seen[i].path != e.path {
          Irreflexive(e.path);
          if i > 0 { Transitive(e.path, seen[0].path, seen[i].path); }
        }
      } else if seen[0].path == e.path {
        forall i | 0 < i < |seen| ensures seen[i].path != e.path { Irreflexive(e.path); }
      } else {
        InsertIff(seen[1..], e);
      }
    }
  }

  lemma MayAdoptMore(e: Entry, rest: seq<Entry>, path: Path, v: Json)
    ensures MayAdopt([e] + rest, path, v) <==> (e.path == path && v in e.adopt) || MayAdopt(rest, path, v)
  {
    assert forall x :: x in [e] + rest <==> x == e || x in rest;
  }

  lemma {:induction false} InsertAdopts(seen: seq<Entry>, e: Entry, path: Path, v: Json)
    requires Insert(seen, e).Ok?
    ensures MayAdopt(Insert(seen, e).value, path, v) <==> MayAdopt(seen, path, v) || (e.path == path && v in e.adopt)
  {
    hide MayAdopt;
    MayAdoptMore(e, seen, path, v);
    if seen == [] {
      assert [e] + seen == [e];
    } else {
      assert seen == [seen[0]] + seen[1..];
      MayAdoptMore(seen[0], seen[1..], path, v);
      if seen[0].path == e.path {
        MayAdoptMore(seen[0].(adopt := seen[0].adopt + e.adopt), seen[1..], path, v);
      } else if !Less(e.path, seen[0].path) {
        InsertAdopts(seen[1..], e, path, v);
        MayAdoptMore(seen[0], Insert(seen[1..], e).value, path, v);
      }
    }
  }

  lemma {:induction false} CollectAdopts(entries: seq<Entry>, path: Path, v: Json)
    requires Collect(entries).Ok?
    ensures MayAdopt(Collect(entries).value, path, v) <==> MayAdopt(entries, path, v)
  {
    if entries != [] {
      var rest, last := entries[..|entries| - 1], entries[|entries| - 1];
      CollectAdopts(rest, path, v);
      InsertAdopts(Collect(rest).value, last, path, v);
      assert forall e :: e in entries <==> e in rest || e == last;
    }
  }

  /** The entries are taken as one contribution exactly when they are consistent. */
  lemma {:induction false} CollectIff(entries: seq<Entry>)
    ensures Collect(entries).Ok? <==> Consistent(entries)
  {
    if entries != [] {
      var rest, last := entries[..|entries| - 1], entries[|entries| - 1];
      CollectIff(rest);
      assert forall e :: e in entries <==> e in rest || e == last;
      assert ValidPath(last.path) <==> last.path != [] && "" !in last.path;
      if Collect(rest).Ok? {
        var seen := Collect(rest).value;
        Collected(rest);
        InsertIff(seen, last);
        SameWanted(seen, rest, last);
      }
    }
  }

  lemma SameWanted(seen: seq<Entry>, rest: seq<Entry>, e: Entry)
    requires Wanted(seen) == Wanted(rest)
    ensures (forall s | s in seen && s.path == e.path :: s.value == e.value)
       <==> (forall s | s in rest && s.path == e.path :: s.value == e.value)
  {
    forall s | s in seen ensures exists r | r in rest :: r.path == s.path && r.value == s.value {
      assert (s.path, s.value) in Wanted(rest);
    }
    forall r | r in rest ensures exists s | s in seen :: s.path == r.path && s.value == r.value {
      assert (r.path, r.value) in Wanted(seen);
    }
  }

  /** The place takes the value, or gives up an earlier value that any of the entries names. */
  ghost predicate TakesAny(doc: Json, entries: seq<Entry>, e: Entry) {
    && OnTheWay(doc, e.path)
    && (ValueAt(doc, e.path).None? || ValueAt(doc, e.path) == Some(e.value)
        || MayAdopt(entries, e.path, ValueAt(doc, e.path).value))
  }

  ghost predicate Scattered(entries: seq<Entry>) {
    forall e, f | e in entries && f in entries && e.path != f.path :: Apart(e.path, f.path)
  }

  lemma CollectedTakes(doc: Json, entries: seq<Entry>, s: Entry)
    requires Collect(entries).Ok? && s in Collect(entries).value && Sorted(Collect(entries).value)
    ensures Takes(doc, s.path, s.value, s.adopt) <==> TakesAny(doc, entries, s)
  {
    var seen := Collect(entries).value;
    forall v ensures v in s.adopt <==> MayAdopt(entries, s.path, v) {
      CollectAdopts(entries, s.path, v);
      if e :| e in seen && e.path == s.path && v in e.adopt {
        var i :| 0 <= i < |seen| && seen[i] == e;
        var j :| 0 <= j < |seen| && seen[j] == s;
        Irreflexive(s.path);
      }
    }
  }

  /**
   Entries at places that lie apart are merged exactly when they are consistent and each place is free, or has the value
   that is wanted, or an earlier value of the program's own that one of the entries for it names.
   */
  lemma MergeIff(doc: Json, entries: seq<Entry>)
    requires doc.Obj? && Scattered(entries)
    ensures Merge(doc, entries).Ok? <==> Consistent(entries) && forall e | e in entries :: TakesAny(doc, entries, e)
  {
    hide Collect, MergeAll, Takes, TakesAny, Consistent, Wanted;
    CollectIff(entries);
    if Collect(entries).Ok? {
      var seen := Collect(entries).value;
      CollectKeepsPaths(entries);
      Collected(entries);
      SeenApart(seen, entries);
      MergeAllIff(doc, seen, [], Null, {});
      forall s | s in seen ensures Takes(doc, s.path, s.value, s.adopt) <==> TakesAny(doc, entries, s) {
        CollectedTakes(doc, entries, s);
      }
      TakenAlike(doc, seen, entries);
    }
  }

  lemma SeenApart(seen: seq<Entry>, entries: seq<Entry>)
    requires Sorted(seen) && Wanted(seen) == Wanted(entries) && Scattered(entries)
    ensures AllApart(seen)
  {
    forall i, j | 0 <= i < j < |seen| ensures Apart(seen[i].path, seen[j].path) {
      assert (seen[i].path, seen[i].value) in Wanted(entries) && (seen[j].path, seen[j].value) in Wanted(entries);
      Irreflexive(seen[i].path);
    }
  }

  lemma TakenAlike(doc: Json, seen: seq<Entry>, entries: seq<Entry>)
    requires Wanted(seen) == Wanted(entries)
    ensures (forall s | s in seen :: TakesAny(doc, entries, s)) <==>
        (forall e | e in entries :: TakesAny(doc, entries, e))
  {
    forall s | s in seen ensures exists e | e in entries :: e.path == s.path && e.value == s.value {
      assert (s.path, s.value) in Wanted(entries);
    }
    forall e | e in entries ensures exists s | s in seen :: s.path == e.path && s.value == e.value {
      assert (e.path, e.value) in Wanted(seen);
    }
  }
}

/** Setting single values inside a JSON object that belongs to the user. */
module JsonEntries {
  import opened Wrappers
  import opened JsonValues
  import opened Lexicographic

  type Path = seq<string>

  /** A value to set, and the earlier values of the program's own that it may replace. */
  datatype Entry = Entry(path: Path, value: Json, adopt: set<Json>)

  // ---- collecting ----

  predicate ValidPath(path: Path) {
    path != [] && forall i | 0 <= i < |path| :: path[i] != ""
  }

  /** Puts an entry into its place in the order of paths; the same path must ask for the same value. */
  function Insert(seen: seq<Entry>, e: Entry): Result<seq<Entry>, string> {
    if seen == [] then Ok([e])
    else if seen[0].path == e.path then
      if seen[0].value != e.value then Err("shared JSON contribution contains incompatible duplicates")
      else Ok([seen[0].(adopt := seen[0].adopt + e.adopt)] + seen[1..])
    else if Less(e.path, seen[0].path) then Ok([e] + seen)
    else match Insert(seen[1..], e)
      case Err(x) => Err(x)
      case Ok(rest) => Ok([seen[0]] + rest)
  }

  function Collect(entries: seq<Entry>): Result<seq<Entry>, string> {
    if entries == [] then Ok([])
    else match Collect(entries[..|entries| - 1])
      case Err(x) => Err(x)
      case Ok(seen) =>
        if !ValidPath(entries[|entries| - 1].path) then Err("shared JSON entry has an invalid path")
        else Insert(seen, entries[|entries| - 1])
  }

  ghost predicate Sorted(seen: seq<Entry>) {
    forall i, j | 0 <= i < j < |seen| :: Less(seen[i].path, seen[j].path)
  }

  // ---- merging ----

  /** Sets one value below an object; missing objects on the way are made. */
  function MergeOne(doc: Json, path: Path, value: Json, adopt: set<Json>): Result<(Json, bool), string>
    requires doc.Obj? && path != []
    decreases |path|
  {
    if |path| == 1 then
      if path[0] !in doc.fields then Ok((Obj(doc.fields[path[0] := value]), true))
      else if doc.fields[path[0]] == value then Ok((doc, false))
      else if doc.fields[path[0]] in adopt then Ok((Obj(doc.fields[path[0] := value]), true))
      else Err("shared JSON entry is user-owned or conflicting")
    else
      var missing := Get(doc, path[0]) == Null;
      var child := if missing then Obj(map[]) else Get(doc, path[0]);
      if !child.Obj? then Err("shared JSON path collides with non-object")
      else match MergeOne(child, path[1..], value, adopt)
        case Err(x) => Err(x)
        case Ok((merged, changed)) => Ok((Obj(doc.fields[path[0] := merged]), changed || missing))
  }

  function MergeAll(doc: Json, seen: seq<Entry>): (r: Result<(Json, bool), string>)
    requires doc.Obj? && forall e | e in seen :: e.path != []
    ensures r.Ok? ==> r.value.0.Obj?
  {
    if seen == [] then Ok((doc, false))
    else
      var last := seen[|seen| - 1];
      match MergeAll(doc, seen[..|seen| - 1])
      case Err(x) => Err(x)
      case Ok((before, changed)) =>
        match MergeOne(before, last.path, last.value, last.adopt)
        case Err(x) => Err(x)
        case Ok((merged, now)) => Ok((merged, changed || now))
  }

  lemma {:induction false} InsertKeepsPaths(seen: seq<Entry>, e: Entry)
    requires e.path != [] && forall x | x in seen :: x.path != []
    requires Insert(seen, e).Ok?
    ensures forall x | x in Insert(seen, e).value :: x.path != []
  {
    if seen != [] && seen[0].path != e.path && !Less(e.path, seen[0].path) { InsertKeepsPaths(seen[1..], e); }
  }

  lemma {:induction false} CollectKeepsPaths(entries: seq<Entry>)
    requires Collect(entries).Ok?
    ensures forall x | x in Collect(entries).value :: x.path != []
  {
    if entries != [] {
      var rest := entries[..|entries| - 1];
      CollectKeepsPaths(rest);
      InsertKeepsPaths(Collect(rest).value, entries[|entries| - 1]);
    }
  }

  /** The merge of a list of entries into a document. */
  function Merge(doc: Json, entries: seq<Entry>): Result<(Json, bool), string>
    requires doc.Obj?
  {
    match Collect(entries)
    case Err(x) => Err(x)
    case Ok(seen) => CollectKeepsPaths(entries); MergeAll(doc, seen)
  }

  /** The program: the document is updated entry by entry, with one flag for all changes. */
  method MergeJsonEntries(doc: Json, entries: seq<Entry>) returns (r: Result<(Json, bool), string>)
    requires doc.Obj?
    ensures r == Merge(doc, entries)
  {
    var seen: seq<Entry> := [];
    var i := 0;
    assert entries[..|entries|] == entries;
    while i < |entries|
      invariant i <= |entries|
      invariant Collect(entries[..i]) == Ok(seen)
    {
      assert entries[..i + 1][..i] == entries[..i];
      Stops(entries, i + 1);
      if !ValidPath(entries[i].path) {
        return Err("shared JSON entry has an invalid path");
      }
      var inserted := Insert(seen, entries[i]);
      if inserted.Err? {
        return Err(inserted.error);
      }
      seen := inserted.value;
      i := i + 1;
    }
    CollectKeepsPaths(entries);
    var document, changed := doc, false;
    var k := 0;
    assert seen[..|seen|] == seen;
    while k < |seen|
      invariant k <= |seen| && document.Obj?
      invariant MergeAll(doc, seen[..k]) == Ok((document, changed))
    {
      assert seen[..k + 1][..k] == seen[..k];
      StopsMerging(doc, seen, k + 1);
      var one := MergeOne(document, seen[k].path, seen[k].value, seen[k].adopt);
      if one.Err? {
        return Err(one.error);
      }
      document, changed := one.value.0, changed || one.value.1;
      k := k + 1;
    }
    r := Ok((document, changed));
  }

  /** An error met on the way is the result. */
  lemma {:induction false} Stops(entries: seq<Entry>, i: nat)
    requires i <= |entries|
    ensures Collect(entries[..i]).Err? ==> Collect(entries) == Collect(entries[..i])
    decreases |entries| - i
  {
    if i < |entries| {
      assert entries[..i + 1][..i] == entries[..i];
      Stops(entries, i + 1);
    } else {
      assert entries[..i] == entries;
    }
  }

  lemma {:induction false} StopsMerging(doc: Json, seen: seq<Entry>, k: nat)
    requires doc.Obj? && k <= |seen| && forall e | e in seen :: e.path != []
    ensures MergeAll(doc, seen[..k]).Err? ==> MergeAll(doc, seen) == MergeAll(doc, seen[..k])
    decreases |seen| - k
  {
    if k < |seen| {
      assert seen[..k + 1][..k] == seen[..k];
      StopsMerging(doc, seen, k + 1);
    } else {
      assert seen[..k] == seen;
    }
  }
}

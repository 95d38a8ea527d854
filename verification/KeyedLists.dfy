/**
 Entries of the program's own in lists that belong to the user.  An entry is recognised by its key fields; a nested
 entry owns one child of an outer element, found by the child's key fields.
 */
module KeyedLists {
  import opened Wrappers
  import opened JsonValues

  type Path = seq<string>

  /** Without a nested list, `nestedField` and `nestedKeys` are empty. */
  datatype Entry = Entry(path: Path, keyFields: seq<string>, value: Json, adopt: set<Json>,
                         nestedField: string, nestedKeys: seq<string>, adoptKeys: set<seq<Json>>)

  // ---- lists ----

  function Select(s: seq<Json>, p: Json -> bool): (r: seq<Json>)
    ensures forall x | x in r :: x in s && p(x)
    ensures forall x | x in s && p(x) :: x in r
  {
    if s == [] then [] else if p(s[0]) then [s[0]] + Select(s[1..], p) else Select(s[1..], p)
  }

  function Not(p: Json -> bool): Json -> bool {
    v => !p(v)
  }

  /** The first element that satisfies `p` becomes `x`, the later ones go. */
  function KeepOne(s: seq<Json>, p: Json -> bool, x: Json): seq<Json> {
    if s == [] then [] else if p(s[0]) then [x] + Select(s[1..], Not(p)) else [s[0]] + KeepOne(s[1..], p, x)
  }

  // ---- keys ----

  function KeyOf(v: Json, names: seq<string>): seq<Json> {
    seq(|names|, i requires 0 <= i < |names| => Get(v, names[i]))
  }

  function Accepted(e: Entry): set<seq<Json>> {
    {KeyOf(e.value, e.keyFields)} + e.adoptKeys
  }

  function Match(e: Entry): Json -> bool {
    (v: Json) => v.Obj? && KeyOf(v, e.keyFields) in Accepted(e)
  }

  // ---- flat entries ----

  function UpdateFlat(values: seq<Json>, e: Entry): Result<(seq<Json>, bool), string> {
    var matches := Select(values, Match(e));
    if matches == [] then Ok((values + [e.value], true))
    else if forall m | m in matches :: m == e.value then Ok((KeepOne(values, Match(e), e.value), |matches| > 1))
    else if (forall m | m in matches :: m == matches[0]) && matches[0] in e.adopt then
      Ok((KeepOne(values, Match(e), e.value), true))
    else Err("shared keyed-list entry is user-owned or ambiguous")
  }

  // ---- nested entries ----

  predicate HasObjects(v: Json, field: string) {
    Get(v, field).Arr? && forall c | c in Get(v, field).items :: c.Obj?
  }

  /** The one child the entry asks for. */
  predicate AsksOneChild(e: Entry) {
    HasObjects(e.value, e.nestedField) && |Get(e.value, e.nestedField).items| == 1
  }

  function Child(e: Entry): Json {
    if AsksOneChild(e) then Get(e.value, e.nestedField).items[0] else Null
  }

  /** A child that the entry owns, by its key or as an earlier value. */
  function OwnChild(e: Entry): Json -> bool {
    c => KeyOf(c, e.nestedKeys) == KeyOf(Child(e), e.nestedKeys) || c in e.adopt
  }

  function Owner(e: Entry): Json -> bool {
    v => Match(e)(v) && HasObjects(v, e.nestedField) && exists c | c in Get(v, e.nestedField).items :: OwnChild(e)(c)
  }

  function OwnKey(e: Entry): Json -> bool {
    (v: Json) => v.Obj? && KeyOf(v, e.keyFields) == KeyOf(e.value, e.keyFields)
  }

  /** The outer elements that may take the child: those that own one, or else those with the entry's own key. */
  function Eligible(values: seq<Json>, e: Entry): Json -> bool {
    if Select(values, Owner(e)) != [] then Owner(e) else OwnKey(e)
  }

  function UpdateChildren(children: seq<Json>, e: Entry): (seq<Json>, bool) {
    var own := Select(children, OwnChild(e));
    if own == [] then (children + [Child(e)], true)
    else (KeepOne(children, OwnChild(e), Child(e)), |own| > 1 || own[0] != Child(e))
  }

  /** Gives an object the entry's own key fields. */
  function SetKeys(v: map<string, Json>, names: seq<string>, from: Json): (map<string, Json>, bool) {
    if names == [] then (v, false)
    else
      var (w, changed) := SetKeys(v, names[..|names| - 1], from);
      var name := names[|names| - 1];
      if Get(Obj(w), name) != Get(from, name) then (w[name := Get(from, name)], true) else (w, changed)
  }

  function UpdateOuter(v: Json, e: Entry): (Json, bool)
    requires v.Obj? && HasObjects(v, e.nestedField)
  {
    var (children, changed) := UpdateChildren(Get(v, e.nestedField).items, e);
    var (w, keyed) := SetKeys(v.fields[e.nestedField := Arr(children)], e.keyFields, e.value);
    (Obj(w), changed || keyed)
  }

  function UpdateNested(values: seq<Json>, e: Entry): Result<(seq<Json>, bool), string> {
    var matches := Select(values, Match(e));
    if !AsksOneChild(e) then Err("shared keyed-list nested value must contain one object")
    else if matches == [] then Ok((values + [e.value], true))
    else if exists m | m in matches :: !HasObjects(m, e.nestedField) then
      Err("shared keyed-list nested target is not an object list")
    else
      var eligible := Select(values, Eligible(values, e));
      if eligible == [] then Ok((values + [e.value], true))
      else if |eligible| > 1 then Err("shared keyed-list nested ownership is ambiguous")
      else
        EligibleMatches(values, e, eligible[0]);
        var (outer, changed) := UpdateOuter(eligible[0], e);
        Ok((KeepOne(values, Eligible(values, e), outer), changed))
  }

  lemma EligibleMatches(values: seq<Json>, e: Entry, v: Json)
    requires v in Select(values, Eligible(values, e))
    ensures v in Select(values, Match(e))
  {
    assert v in values && Eligible(values, e)(v);
    assert Match(e)(v);
  }

  function UpdateList(values: seq<Json>, e: Entry): Result<(seq<Json>, bool), string> {
    if e.nestedField != "" then UpdateNested(values, e) else UpdateFlat(values, e)
  }

  // ---- the document ----

  /** Finds the list at the end of a path, making it and the objects on the way when they are missing. */
  function MergeAt(doc: Json, path: Path, e: Entry): Result<(Json, bool), string>
    requires doc.Obj? && path != []
    decreases |path|
  {
    var found := Get(doc, path[0]);
    var missing := found == Null;
    if |path| == 1 then
      if !missing && !found.Arr? then Err("shared keyed-list target is not a list")
      else match UpdateList(if missing then [] else found.items, e)
        case Err(x) => Err(x)
        case Ok((values, changed)) => Ok((Obj(doc.fields[path[0] := Arr(values)]), changed || missing))
    else if !missing && !found.Obj? then Err("shared keyed-list path collides")
    else match MergeAt(if missing then Obj(map[]) else found, path[1..], e)
      case Err(x) => Err(x)
      case Ok((merged, changed)) => Ok((Obj(doc.fields[path[0] := merged]), changed || missing))
  }

  predicate ValidEntry(e: Entry) {
    && e.path != [] && e.keyFields != []
    && (forall i | 0 <= i < |e.path| :: e.path[i] != "")
    && (forall i | 0 <= i < |e.keyFields| :: e.keyFields[i] != "")
    && (e.nestedField == "" <==> e.nestedKeys == [])
    && (forall k | k in e.adoptKeys :: |k| == |e.keyFields|)
    && e.value.Obj?
  }

  function Identity(e: Entry): (Path, seq<string>, seq<Json>, string, seq<string>) {
    (e.path, e.keyFields, KeyOf(e.value, e.keyFields), e.nestedField, e.nestedKeys)
  }

  predicate SameIdentity(e: Entry, f: Entry) {
    Identity(e) == Identity(f)
  }

  /** One entry for each identity; the same identity must ask for the same value. */
  function Add(grouped: seq<Entry>, e: Entry): Result<seq<Entry>, string> {
    if grouped == [] then Ok([e])
    else if SameIdentity(grouped[0], e) then
      if grouped[0].value != e.value then Err("shared keyed-list contribution contains incompatible duplicates")
      else Ok([e.(adopt := e.adopt + grouped[0].adopt, adoptKeys := e.adoptKeys + grouped[0].adoptKeys)] + grouped[1..])
    else match Add(grouped[1..], e)
      case Err(x) => Err(x)
      case Ok(rest) => Ok([grouped[0]] + rest)
  }

  function Group(entries: seq<Entry>): Result<seq<Entry>, string> {
    if entries == [] then Ok([])
    else match Group(entries[..|entries| - 1])
      case Err(x) => Err(x)
      case Ok(grouped) =>
        if !ValidEntry(entries[|entries| - 1]) then Err("shared keyed-list entry is invalid")
        else Add(grouped, entries[|entries| - 1])
  }

  function MergeAll(doc: Json, grouped: seq<Entry>): (r: Result<(Json, bool), string>)
    requires doc.Obj? && forall e | e in grouped :: e.path != []
    ensures r.Ok? ==> r.value.0.Obj?
  {
    if grouped == [] then Ok((doc, false))
    else
      var last := grouped[|grouped| - 1];
      match MergeAll(doc, grouped[..|grouped| - 1])
      case Err(x) => Err(x)
      case Ok((before, changed)) =>
        match MergeAt(before, last.path, last)
        case Err(x) => Err(x)
        case Ok((merged, now)) => Ok((merged, changed || now))
  }

  lemma {:induction false} AddKeepsValid(grouped: seq<Entry>, e: Entry)
    requires ValidEntry(e) && (forall x | x in grouped :: ValidEntry(x)) && Add(grouped, e).Ok?
    ensures forall x | x in Add(grouped, e).value :: ValidEntry(x)
  {
    if grouped != [] {
      if SameIdentity(grouped[0], e) {
        assert ValidEntry(grouped[0]);
        assert ValidEntry(e.(adopt := e.adopt + grouped[0].adopt, adoptKeys := e.adoptKeys + grouped[0].adoptKeys));
      } else {
        AddKeepsValid(grouped[1..], e);
      }
    }
  }

  lemma {:induction false} GroupIsValid(entries: seq<Entry>)
    requires Group(entries).Ok?
    ensures forall x | x in Group(entries).value :: ValidEntry(x)
  {
    if entries != [] {
      var rest := entries[..|entries| - 1];
      GroupIsValid(rest);
      AddKeepsValid(Group(rest).value, entries[|entries| - 1]);
    }
  }

  function Merge(doc: Json, entries: seq<Entry>): Result<(Json, bool), string>
    requires doc.Obj?
  {
    match Group(entries)
    case Err(x) => Err(x)
    case Ok(grouped) => GroupIsValid(entries); MergeAll(doc, grouped)
  }

  method GroupEntries(entries: seq<Entry>) returns (r: Result<seq<Entry>, string>)
    ensures r == Group(entries)
  {
    var grouped: seq<Entry> := [];
    var i := 0;
    assert entries[..|entries|] == entries;
    while i < |entries|
      invariant i <= |entries|
      invariant Group(entries[..i]) == Ok(grouped)
    {
      assert entries[..i + 1][..i] == entries[..i];
      Stops(entries, i + 1);
      if !ValidEntry(entries[i]) {
        return Err("shared keyed-list entry is invalid");
      }
      var added := Add(grouped, entries[i]);
      if added.Err? {
        return Err(added.error);
      }
      grouped := added.value;
      i := i + 1;
    }
    r := Ok(grouped);
  }

  method MergeGrouped(doc: Json, grouped: seq<Entry>) returns (r: Result<(Json, bool), string>)
    requires doc.Obj? && forall e | e in grouped :: e.path != []
    ensures r == MergeAll(doc, grouped)
  {
    var document, changed := doc, false;
    var k := 0;
    assert grouped[..|grouped|] == grouped;
    while k < |grouped|
      invariant k <= |grouped| && document.Obj?
      invariant MergeAll(doc, grouped[..k]) == Ok((document, changed))
    {
      assert grouped[..k + 1][..k] == grouped[..k];
      StopsMerging(doc, grouped, k + 1);
      var one := MergeAt(document, grouped[k].path, grouped[k]);
      if one.Err? {
        return Err(one.error);
      }
      document, changed := one.value.0, changed || one.value.1;
      k := k + 1;
    }
    r := Ok((document, changed));
  }

  /** The program: the document is updated entry by entry, with one flag for all changes. */
  method MergeKeyedListEntries(doc: Json, entries: seq<Entry>) returns (r: Result<(Json, bool), string>)
    requires doc.Obj?
    ensures r == Merge(doc, entries)
  {
    var grouped := GroupEntries(entries);
    if grouped.Err? {
      return Err(grouped.error);
    }
    GroupIsValid(entries);
    r := MergeGrouped(doc, grouped.value);
  }

  /** An error met on the way is the result. */
  lemma {:induction false} Stops(entries: seq<Entry>, i: nat)
    requires i <= |entries|
    ensures Group(entries[..i]).Err? ==> Group(entries) == Group(entries[..i])
    decreases |entries| - i
  {
    if i < |entries| {
      assert entries[..i + 1][..i] == entries[..i];
      Stops(entries, i + 1);
    } else {
      assert entries[..i] == entries;
    }
  }

  lemma {:induction false} StopsMerging(doc: Json, grouped: seq<Entry>, k: nat)
    requires doc.Obj? && k <= |grouped| && forall e | e in grouped :: e.path != []
    ensures MergeAll(doc, grouped[..k]).Err? ==> MergeAll(doc, grouped) == MergeAll(doc, grouped[..k])
    decreases |grouped| - k
  {
    if k < |grouped| {
      assert grouped[..k + 1][..k] == grouped[..k];
      StopsMerging(doc, grouped, k + 1);
    } else {
      assert grouped[..k] == grouped;
    }
  }
}

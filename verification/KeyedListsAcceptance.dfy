/**
 Which entries a keyed list takes: what is recognised by an entry's key is the entry already, or an earlier one of the
 program's own; a nested entry needs one place among the outer elements.
 */
module KeyedListsAcceptance {
  import opened Wrappers
  import opened JsonValues
  import opened KeyedLists
  import opened KeyedListsProofs
  import JsonAcceptance

  /** The element has the entry's own key or one of its earlier keys. */
  ghost predicate Recognised(v: Json, e: Entry) {
    && v.Obj?
    && (|| HasKey(v, e.keyFields, KeyOf(e.value, e.keyFields))
        || exists k | k in e.adoptKeys :: HasKey(v, e.keyFields, k))
  }

  predicate HasKey(v: Json, names: seq<string>, key: seq<Json>) {
    |key| == |names| && forall i | 0 <= i < |names| :: Get(v, names[i]) == key[i]
  }

  lemma MatchIs(v: Json, e: Entry)
    ensures Match(e)(v) <==> Recognised(v, e)
  {
    forall k ensures HasKey(v, e.keyFields, k) <==> KeyOf(v, e.keyFields) == k {}
  }

  lemma MatchesAre(values: seq<Json>, e: Entry)
    ensures forall v :: v in Select(values, Match(e)) <==> v in values && Recognised(v, e)
  {
    forall v ensures Match(e)(v) <==> Recognised(v, e) { MatchIs(v, e); }
  }

  /** A flat entry is taken when all that it recognises is the entry itself, or one and the same earlier value. */
  ghost predicate TakesFlat(values: seq<Json>, e: Entry) {
    || (forall v | v in values && Recognised(v, e) :: v == e.value)
    || (exists w | w in e.adopt :: forall v | v in values && Recognised(v, e) :: v == w)
  }

  lemma FlatIff(values: seq<Json>, e: Entry)
    ensures UpdateFlat(values, e).Ok? <==> TakesFlat(values, e)
  {
    hide Recognised;
    MatchesAre(values, e);
    var matches := Select(values, Match(e));
    if matches != [] {
      if (forall m | m in matches :: m == matches[0]) && matches[0] in e.adopt {
        assert forall v | v in values && Recognised(v, e) :: v == matches[0];
      }
      assert matches[0] in matches;
    }
  }

  // ---- nested entries ----

  ghost predicate ObjectList(v: Json, field: string) {
    v.Obj? && field in v.fields && v.fields[field].Arr?
    && forall c | c in v.fields[field].items :: c.Obj?
  }

  /** A child that is recognised by its own key, or is an earlier value of it. */
  ghost predicate OwnedChild(c: Json, e: Entry, child: Json) {
    c in e.adopt || forall i | 0 <= i < |e.nestedKeys| :: Get(c, e.nestedKeys[i]) == Get(child, e.nestedKeys[i])
  }

  /** An outer element that has a child of the entry's. */
  ghost predicate Owning(v: Json, e: Entry, child: Json) {
    Recognised(v, e) && ObjectList(v, e.nestedField)
    && exists c | c in v.fields[e.nestedField].items :: OwnedChild(c, e, child)
  }

  /** Where the child may go: to an element that has one, or if there is none, to one with the entry's own key. */
  ghost predicate MayTake(values: seq<Json>, v: Json, e: Entry, child: Json) {
    if exists w | w in values :: Owning(w, e, child) then Owning(v, e, child)
    else v.Obj? && HasKey(v, e.keyFields, KeyOf(e.value, e.keyFields))
  }

  /**
   A nested entry is taken when it has one child, everything that it recognises has a list of objects, and there is at
   most one element for the child.
   */
  ghost predicate TakesNested(values: seq<Json>, e: Entry) {
    && ObjectList(e.value, e.nestedField) && |e.value.fields[e.nestedField].items| == 1
    && (forall v | v in values && Recognised(v, e) :: ObjectList(v, e.nestedField))
    && var child := e.value.fields[e.nestedField].items[0];
       forall i, j | 0 <= i < j < |values| ::
           !(MayTake(values, values[i], e, child) && MayTake(values, values[j], e, child))
  }

  lemma ObjectListIs(v: Json, field: string)
    ensures HasObjects(v, field) <==> ObjectList(v, field)
  {}

  lemma OwnerIs(v: Json, e: Entry)
    requires AsksOneChild(e)
    ensures Owner(e)(v) <==> Owning(v, e, Child(e))
  {
    hide Recognised;
    MatchIs(v, e);
    ObjectListIs(v, e.nestedField);
    forall c ensures OwnChild(e)(c) <==> OwnedChild(c, e, Child(e)) { ChildIs(c, e); }
  }

  lemma ChildIs(c: Json, e: Entry)
    ensures OwnChild(e)(c) <==> OwnedChild(c, e, Child(e))
  {
    if forall i | 0 <= i < |e.nestedKeys| :: Get(c, e.nestedKeys[i]) == Get(Child(e), e.nestedKeys[i]) {
      assert KeyOf(c, e.nestedKeys) == KeyOf(Child(e), e.nestedKeys);
    } else {
      var i :| 0 <= i < |e.nestedKeys| && Get(c, e.nestedKeys[i]) != Get(Child(e), e.nestedKeys[i]);
      assert KeyOf(c, e.nestedKeys)[i] != KeyOf(Child(e), e.nestedKeys)[i];
    }
  }

  lemma EligibleIs(values: seq<Json>, v: Json, e: Entry)
    requires AsksOneChild(e)
    ensures Eligible(values, e)(v) <==> MayTake(values, v, e, Child(e))
  {
    hide Owner, Owning;
    forall w ensures Owner(e)(w) <==> Owning(w, e, Child(e)) { OwnerIs(w, e); }
    if Select(values, Owner(e)) != [] { assert Select(values, Owner(e))[0] in Select(values, Owner(e)); }
    OwnKeyIs(v, e);
  }

  lemma OwnKeyIs(v: Json, e: Entry)
    ensures OwnKey(e)(v) <==> v.Obj? && HasKey(v, e.keyFields, KeyOf(e.value, e.keyFields))
  {
    assert HasKey(v, e.keyFields, KeyOf(e.value, e.keyFields)) <==>
        KeyOf(v, e.keyFields) == KeyOf(e.value, e.keyFields);
  }

  ghost predicate Twice(s: seq<Json>, p: Json -> bool) {
    exists i, j | 0 <= i < j < |s| :: p(s[i]) && p(s[j])
  }

  lemma TwiceMore(s: seq<Json>, p: Json -> bool)
    requires s != []
    ensures Twice(s, p) <==> Twice(s[1..], p) || (p(s[0]) && exists x | x in s[1..] :: p(x))
  {
    var rest := s[1..];
    if Twice(s, p) {
      var i, j :| 0 <= i < j < |s| && p(s[i]) && p(s[j]);
      assert rest[j - 1] == s[j] && s[j] in rest;
      if i > 0 { assert p(rest[i - 1]) && p(rest[j - 1]); }
    }
    if Twice(rest, p) {
      var i, j :| 0 <= i < j < |rest| && p(rest[i]) && p(rest[j]);
      assert p(s[i + 1]) && p(s[j + 1]);
    }
    if p(s[0]) && exists x | x in rest :: p(x) {
      var j :| 0 <= j < |rest| && p(rest[j]);
      assert p(s[0]) && p(s[j + 1]);
    }
  }

  lemma {:induction false} AtMostOne(s: seq<Json>, p: Json -> bool)
    ensures |Select(s, p)| <= 1 <==> !Twice(s, p)
  {
    hide Twice;
    if s == [] {
      NotTwice(s, p);
    } else {
      AtMostOne(s[1..], p);
      TwiceMore(s, p);
      if Select(s[1..], p) != [] { assert Select(s[1..], p)[0] in Select(s[1..], p); }
    }
  }

  lemma NotTwice(s: seq<Json>, p: Json -> bool)
    requires s == []
    ensures !Twice(s, p)
  {}

  lemma EligibleIsRecognised(values: seq<Json>, v: Json, e: Entry, child: Json)
    requires v in values && MayTake(values, v, e, child)
    ensures Recognised(v, e)
  {}

  lemma NestedIff(values: seq<Json>, e: Entry)
    ensures UpdateNested(values, e).Ok? <==> TakesNested(values, e)
  {
    hide Recognised, MayTake, Eligible, UpdateOuter;
    ObjectListIs(e.value, e.nestedField);
    if AsksOneChild(e) {
      MatchesAre(values, e);
      var child := Child(e);
      var matches := Select(values, Match(e));
      forall v ensures Eligible(values, e)(v) <==> MayTake(values, v, e, child) { EligibleIs(values, v, e); }
      forall v | v in values && MayTake(values, v, e, child) ensures v in matches {
        EligibleIsRecognised(values, v, e, child);
      }
      AtMostOne(values, Eligible(values, e));
      forall v ensures HasObjects(v, e.nestedField) <==> ObjectList(v, e.nestedField) {
        ObjectListIs(v, e.nestedField);
      }
      if matches == [] {
        forall v | v in values ensures !MayTake(values, v, e, child) && !Recognised(v, e) {
          assert v !in matches;
        }
      }
    }
  }

  // ---- in the document ----

  /** The list at the end of the path, if it is there. */
  ghost predicate ListAt(doc: Json, path: Path, values: seq<Json>) {
    var v := ValueAt(doc, path);
    if v.None? || v.value.Null? then values == [] else v == Some(Arr(values))
  }

  /** The way leads through objects to a list, or to nothing, that takes the entry. */
  ghost predicate TakesAt(doc: Json, path: Path, e: Entry) {
    JsonAcceptance.OnTheWay(doc, path)
    && exists values :: ListAt(doc, path, values)
         && if e.nestedField != "" then TakesNested(values, e) else TakesFlat(values, e)
  }

  lemma ListIff(values: seq<Json>, e: Entry)
    ensures UpdateList(values, e).Ok? <==> if e.nestedField != "" then TakesNested(values, e) else TakesFlat(values, e)
  {
    hide TakesNested, TakesFlat, UpdateNested, UpdateFlat;
    NestedIff(values, e);
    FlatIff(values, e);
  }

  /** An entry is merged exactly when its place takes it. */
  lemma {:induction false} MergeAtIff(doc: Json, path: Path, e: Entry)
    requires doc.Obj? && path != []
    ensures MergeAt(doc, path, e).Ok? <==> TakesAt(doc, path, e)
    decreases |path|
  {
    hide UpdateList, TakesNested, TakesFlat;
    var found := Get(doc, path[0]);
    if |path| == 1 {
      assert path[1..] == [];
      assert ValueAt(doc, path) == if path[0] in doc.fields then Some(doc.fields[path[0]]) else None;
      ListIff(if found == Null then [] else if found.Arr? then found.items else [], e);
      if found == Null { assert ListAt(doc, path, []); }
      if found.Arr? { assert ListAt(doc, path, found.items); }
    } else {
      var child := if found == Null then Obj(map[]) else found;
      JsonAcceptance.WayDown(doc, path, child);
      if child.Obj? {
        MergeAtIff(child, path[1..], e);
        forall values ensures ListAt(doc, path, values) <==> ListAt(child, path[1..], values) {}
      }
    }
  }

  // ---- the entries as they are contributed ----

  /** The same place, keys and children are asked for. */
  predicate Alike(e: Entry, f: Entry) {
    && e.path == f.path && e.keyFields == f.keyFields && e.nestedField == f.nestedField && e.nestedKeys == f.nestedKeys
    && forall i | 0 <= i < |e.keyFields| :: Get(e.value, e.keyFields[i]) == Get(f.value, e.keyFields[i])
  }

  lemma AlikeIs(e: Entry, f: Entry)
    ensures Alike(e, f) <==> SameIdentity(e, f)
  {
    if e.keyFields == f.keyFields {
      var k, l := KeyOf(e.value, e.keyFields), KeyOf(f.value, f.keyFields);
      assert forall i | 0 <= i < |e.keyFields| ::
          k[i] == Get(e.value, e.keyFields[i]) && l[i] == Get(f.value, e.keyFields[i]);
      if Alike(e, f) { assert k == l; }
    }
  }

  /** What any of the entries for this names as an earlier value, or as an earlier key. */
  ghost predicate Names(entries: seq<Entry>, e: Entry, v: Json, key: seq<Json>) {
    exists f | f in entries :: SameIdentity(f, e) && (v in f.adopt || key in f.adoptKeys)
  }

  lemma NamesMore(first: Entry, rest: seq<Entry>, e: Entry, v: Json, key: seq<Json>)
    ensures Names([first] + rest, e, v, key)
       <==> (SameIdentity(first, e) && (v in first.adopt || key in first.adoptKeys)) || Names(rest, e, v, key)
  {
    assert forall f :: f in [first] + rest <==> f == first || f in rest;
  }

  lemma {:induction false} AddNames(grouped: seq<Entry>, f: Entry, e: Entry, v: Json, key: seq<Json>)
    requires Add(grouped, f).Ok?
    ensures Names(Add(grouped, f).value, e, v, key)
       <==> Names(grouped, e, v, key) || (SameIdentity(f, e) && (v in f.adopt || key in f.adoptKeys))
  {
    hide Names, Identity;
    if grouped == [] {
      NamesMore(f, [], e, v, key);
      assert [f] + [] == [f];
    } else {
      assert grouped == [grouped[0]] + grouped[1..];
      NamesMore(grouped[0], grouped[1..], e, v, key);
      if SameIdentity(grouped[0], f) {
        var both := f.(adopt := f.adopt + grouped[0].adopt, adoptKeys := f.adoptKeys + grouped[0].adoptKeys);
        BothAlike(f, both);
        NamesMore(both, grouped[1..], e, v, key);
      } else {
        AddNames(grouped[1..], f, e, v, key);
        NamesMore(grouped[0], Add(grouped[1..], f).value, e, v, key);
      }
    }
  }

  lemma BothAlike(f: Entry, both: Entry)
    requires both == f.(adopt := both.adopt, adoptKeys := both.adoptKeys)
    ensures SameIdentity(both, f)
  {}

  ghost predicate OneEach(grouped: seq<Entry>) {
    forall i, j | 0 <= i < j < |grouped| :: !SameIdentity(grouped[i], grouped[j])
  }

  lemma OneEachMore(first: Entry, rest: seq<Entry>)
    requires OneEach(rest) && forall g | g in rest :: !SameIdentity(first, g)
    ensures OneEach([first] + rest)
  {
    hide Identity;
    var all := [first] + rest;
    forall i, j | 0 <= i < j < |all| ensures !SameIdentity(all[i], all[j]) {
      assert all[j] == rest[j - 1] && rest[j - 1] in rest;
      if i > 0 { assert all[i] == rest[i - 1]; }
    }
  }

  lemma FirstIsOther(grouped: seq<Entry>, g: Entry)
    requires grouped != [] && OneEach(grouped) && g in grouped[1..]
    ensures !SameIdentity(grouped[0], g)
  {
    hide Identity;
    var k :| 0 <= k < |grouped[1..]| && grouped[1..][k] == g;
    assert grouped[k + 1] == g;
  }

  lemma {:induction false} AddOne(grouped: seq<Entry>, f: Entry)
    requires OneEach(grouped) && Add(grouped, f).Ok?
    ensures OneEach(Add(grouped, f).value)
    ensures forall g | g in Add(grouped, f).value :: SameIdentity(g, f) || g in grouped
  {
    hide Identity;
    if grouped != [] {
      assert OneEach(grouped[1..]) by {
        forall i, j | 0 <= i < j < |grouped[1..]| ensures !SameIdentity(grouped[1..][i], grouped[1..][j]) {
          assert !SameIdentity(grouped[i + 1], grouped[j + 1]);
        }
      }
      var first := if SameIdentity(grouped[0], f) then Add(grouped, f).value[0] else grouped[0];
      var rest := if SameIdentity(grouped[0], f) then grouped[1..] else Add(grouped[1..], f).value;
      if SameIdentity(grouped[0], f) { BothAlike(f, first); } else { AddOne(grouped[1..], f); }
      forall g | g in rest ensures !SameIdentity(first, g) {
        if g in grouped[1..] { FirstIsOther(grouped, g); }
      }
      OneEachMore(first, rest);
      assert Add(grouped, f).value == [first] + rest;
    }
  }

  /**
   Of each place, key and child there is one entry, and it names the earlier values and keys that any of them named.
   */
  lemma {:induction false} GroupNames(entries: seq<Entry>, e: Entry, v: Json, key: seq<Json>)
    requires Group(entries).Ok?
    ensures OneEach(Group(entries).value)
    ensures Names(Group(entries).value, e, v, key) <==> Names(entries, e, v, key)
  {
    hide Identity;
    if entries != [] {
      var rest, last := entries[..|entries| - 1], entries[|entries| - 1];
      GroupNames(rest, e, v, key);
      AddNames(Group(rest).value, last, e, v, key);
      AddOne(Group(rest).value, last);
      assert forall f :: f in entries <==> f in rest || f == last;
    }
  }

  /**
   An entry has a path and key fields, asks for an object, and names children and earlier keys in full or not at all.
   */
  predicate Complete(e: Entry) {
    && e.path != [] && "" !in e.path && e.keyFields != [] && "" !in e.keyFields && e.value.Obj?
    && (e.nestedField != "" <==> e.nestedKeys != [])
    && forall k | k in e.adoptKeys :: |k| == |e.keyFields|
  }

  /** Entries are taken as one contribution exactly when they are complete and two alike ask for the same value. */
  lemma GroupIff(entries: seq<Entry>)
    ensures Group(entries).Ok? <==>
              && (forall e | e in entries :: Complete(e))
              && forall e, f | e in entries && f in entries && Alike(e, f) :: e.value == f.value
  {
    GroupedIff(entries);
    forall e | e in entries ensures ValidEntry(e) <==> Complete(e) {}
    forall e, f | e in entries && f in entries ensures Alike(e, f) <==> SameIdentity(e, f) { AlikeIs(e, f); }
  }
}

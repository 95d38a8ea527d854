/** Merging keyed list entries: nothing of the user's is lost, and a second merge changes nothing. */
module KeyedListsProofs {
  import opened Wrappers
  import opened JsonValues
  import opened KeyedLists

  // ---- selecting and replacing ----

  lemma {:induction false} SelectConcat(a: seq<Json>, b: seq<Json>, p: Json -> bool)
    ensures Select(a + b, p) == Select(a, p) + Select(b, p)
  {
    if a == [] {
      assert a + b == b;
    } else {
      assert (a + b)[1..] == a[1..] + b;
      SelectConcat(a[1..], b, p);
    }
  }

  lemma {:induction false} SelectSelect(s: seq<Json>, p: Json -> bool, q: Json -> bool)
    requires forall v | v in s && q(v) :: p(v)
    ensures Select(Select(s, p), q) == Select(s, q)
  {
    if s != [] {
      SelectSelect(s[1..], p, q);
      if p(s[0]) { assert Select(s, p)[1..] == Select(s[1..], p); }
    }
  }

  lemma {:induction false} KeepOneOthers(s: seq<Json>, p: Json -> bool, x: Json, g: Json -> bool)
    requires (forall v | v in s && g(v) :: !p(v)) && !g(x)
    ensures Select(KeepOne(s, p, x), g) == Select(s, g)
  {
    if s != [] {
      var r := KeepOne(s, p, x);
      if p(s[0]) {
        assert r[1..] == Select(s[1..], Not(p));
        SelectSelect(s[1..], Not(p), g);
      } else {
        assert r[1..] == KeepOne(s[1..], p, x);
        KeepOneOthers(s[1..], p, x, g);
      }
    }
  }

  lemma {:induction false} SelectsNone(s: seq<Json>, g: Json -> bool)
    requires forall v | v in s :: !g(v)
    ensures Select(s, g) == []
  {
    if s != [] { SelectsNone(s[1..], g); }
  }

  lemma {:induction false} KeepOneNew(s: seq<Json>, p: Json -> bool, x: Json, g: Json -> bool)
    requires Select(s, p) != [] && g(x) && forall v | v in s && g(v) :: p(v)
    ensures Select(KeepOne(s, p, x), g) == [x]
  {
    var r := KeepOne(s, p, x);
    if p(s[0]) {
      assert r[1..] == Select(s[1..], Not(p));
      SelectsNone(Select(s[1..], Not(p)), g);
    } else {
      assert r[1..] == KeepOne(s[1..], p, x);
      KeepOneNew(s[1..], p, x, g);
    }
  }

  lemma {:induction false} SelectsAll(s: seq<Json>, g: Json -> bool)
    requires forall v | v in s :: g(v)
    ensures Select(s, g) == s
  {
    if s != [] { SelectsAll(s[1..], g); }
  }

  lemma {:induction false} KeepOneSame(s: seq<Json>, p: Json -> bool, x: Json)
    requires Select(s, p) == [x]
    ensures KeepOne(s, p, x) == s
  {
    if p(s[0]) {
      assert Select(s[1..], p) == [];
      SelectsAll(s[1..], Not(p));
    } else {
      KeepOneSame(s[1..], p, x);
    }
  }

  lemma {:induction false} KeepOneMembers(s: seq<Json>, p: Json -> bool, x: Json)
    ensures forall v | v in KeepOne(s, p, x) :: v == x || v in s
  {
    if s != [] && !p(s[0]) { KeepOneMembers(s[1..], p, x); }
  }

  // ---- one outer element ----

  lemma ChildrenUpdated(children: seq<Json>, e: Entry)
    requires AsksOneChild(e) && forall c | c in children :: c.Obj?
    ensures var (updated, changed) := UpdateChildren(children, e);
            && (forall c | c in updated :: c.Obj?)
            && Select(updated, OwnChild(e)) == [Child(e)]
            && Select(updated, Not(OwnChild(e))) == Select(children, Not(OwnChild(e)))
            && (!changed ==> updated == children)
  {
    var own := OwnChild(e);
    assert own(Child(e)) && Child(e).Obj?;
    if Select(children, own) == [] {
      SelectConcat(children, [Child(e)], own);
      SelectConcat(children, [Child(e)], Not(own));
      assert Select([Child(e)], own) == [Child(e)];
      assert Select([Child(e)], Not(own)) == [];
    } else {
      KeepOneNew(children, own, Child(e), own);
      KeepOneOthers(children, own, Child(e), Not(own));
      KeepOneMembers(children, own, Child(e));
      if |Select(children, own)| == 1 && Select(children, own)[0] == Child(e) { KeepOneSame(children, own, Child(e)); }
    }
  }

  lemma {:induction false} KeysSet(v: map<string, Json>, names: seq<string>, from: Json)
    ensures var (w, changed) := SetKeys(v, names, from);
            && (forall i | 0 <= i < |names| :: Get(Obj(w), names[i]) == Get(from, names[i]))
            && (forall n | n !in names :: (n in w <==> n in v) && (n in v ==> w[n] == v[n]))
            && (!changed ==> w == v)
  {
    if names != [] {
      var rest := names[..|names| - 1];
      KeysSet(v, rest, from);
      assert forall n :: n in rest ==> n in names;
    }
  }

  lemma {:induction false} KeysIdle(v: map<string, Json>, names: seq<string>, from: Json)
    requires forall i | 0 <= i < |names| :: Get(Obj(v), names[i]) == Get(from, names[i])
    ensures SetKeys(v, names, from) == (v, false)
  {
    if names != [] { KeysIdle(v, names[..|names| - 1], from); }
  }

  ghost predicate HasOwnKeys(v: Json, e: Entry) {
    forall i | 0 <= i < |e.keyFields| :: Get(v, e.keyFields[i]) == Get(e.value, e.keyFields[i])
  }

  lemma OwnKeysAreKey(v: Json, e: Entry)
    requires HasOwnKeys(v, e)
    ensures KeyOf(v, e.keyFields) == KeyOf(e.value, e.keyFields)
  {}

  /** What an updated outer element is: its own children are the one asked for, and updating it again does nothing. */
  ghost predicate Updated(v: Json, e: Entry) {
    && v.Obj? && HasObjects(v, e.nestedField) && HasOwnKeys(v, e)
    && Select(Get(v, e.nestedField).items, OwnChild(e)) == [Child(e)]
  }

  lemma UpdatedIsIdle(v: Json, e: Entry)
    requires AsksOneChild(e) && Updated(v, e)
    ensures UpdateOuter(v, e) == (v, false)
  {
    var children := Get(v, e.nestedField).items;
    KeepOneSame(children, OwnChild(e), Child(e));
    assert v.fields[e.nestedField := Arr(children)] == v.fields;
    KeysIdle(v.fields, e.keyFields, e.value);
  }

  lemma AskedIsUpdated(e: Entry)
    requires AsksOneChild(e) && e.value.Obj?
    ensures Updated(e.value, e)
  {
    assert Get(e.value, e.nestedField).items == [Child(e)];
  }

  /**
   The outer element keeps all its other fields, and all children that are not the entry's own, in order; only the
   key fields and the own child change.
   */
  ghost predicate OwnPartOnly(v: Json, w: Json, e: Entry)
    requires v.Obj? && HasObjects(v, e.nestedField) && w.Obj? && HasObjects(w, e.nestedField)
  {
    && (forall n | n != e.nestedField && n !in e.keyFields ::
         (n in w.fields <==> n in v.fields) && Get(w, n) == Get(v, n))
    && (e.nestedField !in e.keyFields ==>
          Select(Get(w, e.nestedField).items, Not(OwnChild(e)))
            == Select(Get(v, e.nestedField).items, Not(OwnChild(e))))
  }

  lemma OuterUpdated(v: Json, e: Entry)
    requires v.Obj? && HasObjects(v, e.nestedField) && AsksOneChild(e) && e.value.Obj?
    ensures var (w, changed) := UpdateOuter(v, e);
            Updated(w, e) && (!changed ==> w == v) && OwnPartOnly(v, w, e)
  {
    var children := Get(v, e.nestedField).items;
    ChildrenUpdated(children, e);
    var (updated, changed) := UpdateChildren(children, e);
    var fields := v.fields[e.nestedField := Arr(updated)];
    KeysSet(fields, e.keyFields, e.value);
    var w := UpdateOuter(v, e).0;
    if e.nestedField in e.keyFields {
      var i :| 0 <= i < |e.keyFields| && e.keyFields[i] == e.nestedField;
      AskedIsUpdated(e);
      assert Get(w, e.keyFields[i]) == Get(e.value, e.keyFields[i]);
    }
    if !changed { assert fields == v.fields; }
  }

  // ---- one list ----

  /** What a merge changes nothing about, said with the elements that match. */
  ghost predicate Settled(matches: seq<Json>, e: Entry) {
    if e.nestedField == "" then matches == [e.value]
    else
      && AsksOneChild(e) && (forall m | m in matches :: HasObjects(m, e.nestedField))
      && (exists v | v in matches :: Select(matches, Eligible(matches, e)) == [v] && Updated(v, e))
  }

  lemma EligibleAmongMatches(values: seq<Json>, e: Entry)
    ensures var matches := Select(values, Match(e));
            && Eligible(values, e) == Eligible(matches, e)
            && Select(values, Eligible(values, e)) == Select(matches, Eligible(matches, e))
  {
    SelectSelect(values, Match(e), Owner(e));
    SelectSelect(values, Match(e), OwnKey(e));
  }

  lemma FlatIdle(values: seq<Json>, e: Entry)
    requires e.value.Obj? && e.nestedField == ""
    ensures UpdateList(values, e) == Ok((values, false)) <==> Settled(Select(values, Match(e)), e)
    ensures UpdateList(values, e).Ok? && !UpdateList(values, e).value.1 ==> UpdateList(values, e).value.0 == values
  {
    var matches := Select(values, Match(e));
    if matches == [e.value] { KeepOneSame(values, Match(e), e.value); }
    if matches != [] && |matches| <= 1 && matches[0] == e.value { assert matches == [e.value]; }
  }

  lemma NestedIdle(values: seq<Json>, e: Entry)
    requires e.value.Obj? && e.nestedField != ""
    ensures UpdateList(values, e) == Ok((values, false)) <==> Settled(Select(values, Match(e)), e)
    ensures UpdateList(values, e).Ok? && !UpdateList(values, e).value.1 ==> UpdateList(values, e).value.0 == values
  {
    hide Select, KeepOne, UpdateOuter, Updated, OwnPartOnly, HasObjects, AsksOneChild, Eligible;
    var matches := Select(values, Match(e));
    EligibleAmongMatches(values, e);
    var eligible := Select(values, Eligible(values, e));
    if AsksOneChild(e) && |eligible| == 1 && forall m | m in matches :: HasObjects(m, e.nestedField) {
      var v := eligible[0];
      EligibleMatches(values, e, v);
      OuterUpdated(v, e);
      assert eligible == [v];
      KeepOneSame(values, Eligible(values, e), v);
      if Updated(v, e) { UpdatedIsIdle(v, e); }
    }
  }

  lemma Idle(values: seq<Json>, e: Entry)
    requires e.value.Obj?
    ensures UpdateList(values, e) == Ok((values, false)) <==> Settled(Select(values, Match(e)), e)
    ensures UpdateList(values, e).Ok? && !UpdateList(values, e).value.1 ==> UpdateList(values, e).value.0 == values
  {
    if e.nestedField == "" { FlatIdle(values, e); } else { NestedIdle(values, e); }
  }

  lemma OwnValueMatches(e: Entry)
    requires e.value.Obj?
    ensures Match(e)(e.value)
  {}

  lemma FlatSettles(values: seq<Json>, e: Entry)
    requires e.value.Obj? && e.nestedField == "" && UpdateList(values, e).Ok?
    ensures Settled(Select(UpdateList(values, e).value.0, Match(e)), e)
  {
    OwnValueMatches(e);
    if Select(values, Match(e)) == [] {
      SelectConcat(values, [e.value], Match(e));
      assert Select([e.value], Match(e)) == [e.value];
    } else {
      KeepOneNew(values, Match(e), e.value, Match(e));
    }
  }

  /** After an update there is exactly one owner, and it is up to date. */
  lemma OneOwner(matches: seq<Json>, e: Entry, v: Json)
    requires e.nestedField != "" && AsksOneChild(e) && v in matches && Updated(v, e) && Select(matches, Owner(e)) == [v]
    requires forall m | m in matches :: HasObjects(m, e.nestedField)
    ensures Settled(matches, e)
  {
    assert Select(matches, Eligible(matches, e)) == [v];
  }

  lemma UpdatedOwns(v: Json, e: Entry)
    requires Updated(v, e)
    ensures Owner(e)(v)
  {
    OwnKeysAreKey(v, e);
    assert Match(e)(v);
    var children := Get(v, e.nestedField).items;
    assert Child(e) in Select(children, OwnChild(e));
    assert Child(e) in children && OwnChild(e)(Child(e));
  }

  lemma AppendSettles(values: seq<Json>, e: Entry)
    requires e.value.Obj? && e.nestedField != "" && AsksOneChild(e) && Select(values, Owner(e)) == []
    requires forall m | m in Select(values, Match(e)) :: HasObjects(m, e.nestedField)
    ensures Settled(Select(values + [e.value], Match(e)), e)
  {
    AskedIsUpdated(e);
    UpdatedOwns(e.value, e);
    OwnValueMatches(e);
    SelectConcat(values, [e.value], Match(e));
    SelectConcat(values, [e.value], Owner(e));
    assert Select([e.value], Match(e)) == [e.value] && Select([e.value], Owner(e)) == [e.value];
    var matches := Select(values + [e.value], Match(e));
    SelectSelect(values + [e.value], Match(e), Owner(e));
    OneOwner(matches, e, e.value);
  }

  lemma ReplaceSettles(values: seq<Json>, e: Entry, w: Json)
    requires e.value.Obj? && e.nestedField != "" && AsksOneChild(e) && Updated(w, e)
    requires |Select(values, Eligible(values, e))| == 1
    requires forall m | m in Select(values, Match(e)) :: HasObjects(m, e.nestedField)
    ensures Settled(Select(KeepOne(values, Eligible(values, e), w), Match(e)), e)
  {
    var after := KeepOne(values, Eligible(values, e), w);
    UpdatedOwns(w, e);
    KeepOneMembers(values, Eligible(values, e), w);
    KeepOneNew(values, Eligible(values, e), w, Owner(e));
    SelectSelect(after, Match(e), Owner(e));
    var matches := Select(after, Match(e));
    assert w in Select(after, Owner(e));
    forall m | m in matches ensures HasObjects(m, e.nestedField) {
      if m != w { assert m in Select(values, Match(e)); }
    }
    OneOwner(matches, e, w);
  }

  /** One update settles the entry. */
  lemma UpdateSettles(values: seq<Json>, e: Entry)
    requires e.value.Obj? && UpdateList(values, e).Ok?
    ensures Settled(Select(UpdateList(values, e).value.0, Match(e)), e)
  {
    if e.nestedField == "" {
      FlatSettles(values, e);
    } else if Select(values, Match(e)) == [] {
      SelectSelect(values, Match(e), Owner(e));
      AppendSettles(values, e);
    } else {
      var eligible := Select(values, Eligible(values, e));
      if eligible == [] {
        AppendSettles(values, e);
      } else {
        EligibleMatches(values, e, eligible[0]);
        OuterUpdated(eligible[0], e);
        ReplaceSettles(values, e, UpdateOuter(eligible[0], e).0);
      }
    }
  }

  /** Elements that do not match are kept, all of them, unchanged and in order. */
  lemma UpdateKeeps(values: seq<Json>, e: Entry, g: Json -> bool)
    requires e.value.Obj? && UpdateList(values, e).Ok? && forall v | g(v) :: !Match(e)(v)
    ensures Select(UpdateList(values, e).value.0, g) == Select(values, g)
  {
    OwnValueMatches(e);
    SelectConcat(values, [e.value], g);
    assert Select([e.value], g) == [];
    var p := if e.nestedField == "" then Match(e) else Eligible(values, e);
    var eligible := Select(values, p);
    if e.nestedField == "" {
      KeepOneOthers(values, p, e.value, g);
    } else if AsksOneChild(e) && |eligible| == 1
      && (forall m | m in Select(values, Match(e)) :: HasObjects(m, e.nestedField)) {
      EligibleMatches(values, e, eligible[0]);
      OuterUpdated(eligible[0], e);
      var w := UpdateOuter(eligible[0], e).0;
      OwnKeysAreKey(w, e);
      KeepOneOthers(values, p, w, g);
    }
  }

  lemma {:induction false} ReplacesOnePlace(s: seq<Json>, p: Json -> bool, w: Json) returns (t: nat)
    requires |Select(s, p)| == 1
    ensures t < |s| && s[t] == Select(s, p)[0] && KeepOne(s, p, w) == s[t := w]
  {
    if p(s[0]) {
      t := 0;
      SelectsAllOthers(s[1..], p);
    } else {
      var u := ReplacesOnePlace(s[1..], p, w);
      t := u + 1;
    }
  }

  lemma {:induction false} SelectsAllOthers(s: seq<Json>, p: Json -> bool)
    requires Select(s, p) == []
    ensures Select(s, Not(p)) == s
  {
    if s != [] { SelectsAllOthers(s[1..], p); }
  }

  /** The list after a nested update: an element more, or one that differs in the entry's own part. */
  ghost predicate OneTouched(values: seq<Json>, after: seq<Json>, e: Entry, t: nat) {
    if t == |values| then after == values + [e.value]
    else
      && t < |values| && |after| == |values| && after == values[t := after[t]]
      && Match(e)(values[t]) && HasObjects(values[t], e.nestedField) && Updated(after[t], e)
      && OwnPartOnly(values[t], after[t], e)
  }

  /**
   A nested entry touches at most one outer element; the others, matching or not, stay as they are.  In that one,
   everything stays but the own child and the key fields.
   */
  lemma NestedKeeps(values: seq<Json>, e: Entry) returns (t: nat)
    requires e.value.Obj? && e.nestedField != "" && UpdateList(values, e).Ok?
    ensures OneTouched(values, UpdateList(values, e).value.0, e, t)
    ensures t == |values| <==> Select(values, Eligible(values, e)) == []
  {
    var p := Eligible(values, e);
    if Select(values, p) != [] { EligibleMatches(values, e, Select(values, p)[0]); }
    if Select(values, Match(e)) == [] || Select(values, p) == [] {
      t := |values|;
    } else {
      var v := Select(values, p)[0];
      EligibleMatches(values, e, v);
      OuterUpdated(v, e);
      var w := UpdateOuter(v, e).0;
      t := ReplacesOnePlace(values, p, w);
      assert UpdateList(values, e).value.0 == values[t := w];
    }
  }

  // ---- the document ----

  ghost predicate SettledAt(doc: Json, path: Path, e: Entry)
    requires doc.Obj? && path != []
  {
    MergeAt(doc, path, e) == Ok((doc, false))
  }

  function ListIn(found: Json): seq<Json> {
    if found.Arr? then found.items else []
  }

  function ObjectIn(found: Json): (r: Json)
    ensures r.Obj?
  {
    if found.Obj? then found else Obj(map[])
  }

  lemma {:induction false} MergeAtSettles(doc: Json, path: Path, e: Entry)
    requires doc.Obj? && path != [] && e.value.Obj? && MergeAt(doc, path, e).Ok?
    ensures var (merged, changed) := MergeAt(doc, path, e).value;
            merged.Obj? && SettledAt(merged, path, e) && (!changed ==> merged == doc)
    decreases |path|
  {
    hide UpdateList, Settled, Select, Match;
    var merged := MergeAt(doc, path, e).value.0;
    var found := Get(doc, path[0]);
    if |path| == 1 {
      var values := ListIn(found);
      var after := UpdateList(values, e).value.0;
      UpdateSettles(values, e);
      Idle(after, e);
      Idle(values, e);
      assert Get(merged, path[0]) == Arr(after);
      assert merged.fields[path[0] := Arr(after)] == merged.fields;
      if found.Arr? { assert doc.fields[path[0] := found] == doc.fields; }
    } else {
      var child := ObjectIn(found);
      MergeAtSettles(child, path[1..], e);
      var inner := MergeAt(child, path[1..], e).value.0;
      assert Get(merged, path[0]) == inner;
      assert merged.fields[path[0] := inner] == merged.fields;
      if found.Obj? { assert doc.fields[path[0] := found] == doc.fields; }
    }
  }

  ghost predicate Disjoint(e: Entry, f: Entry) {
    e.keyFields == f.keyFields && Accepted(e) !! Accepted(f)
  }

  /** Nested entries for the same outer elements that own different children there. */
  ghost predicate Siblings(e: Entry, f: Entry) {
    && e.keyFields == f.keyFields && KeyOf(e.value, e.keyFields) == KeyOf(f.value, f.keyFields)
       && e.adoptKeys == f.adoptKeys
    && e.nestedField != "" && f.nestedField != "" && e.nestedField !in e.keyFields && f.nestedField !in e.keyFields
    && (e.nestedField == f.nestedField ==> forall c :: !(OwnChild(e)(c) && OwnChild(f)(c)))
  }

  /**
   What a caller can check: entries for one list use the same key fields, and accept different keys or own different
   children of the elements they share.
   */
  ghost predicate Compatible(e: Entry, f: Entry) {
    Disjoint(e, f) || Siblings(e, f)
  }

  lemma SelectReplaced(s: seq<Json>, t: nat, w: Json, p: Json -> bool)
    requires t < |s| && p(s[t]) == p(w)
    ensures !p(w) ==> Select(s[t := w], p) == Select(s, p)
    ensures p(w) && |Select(s, p)| == 1 ==> Select(s, p) == [s[t]] && Select(s[t := w], p) == [w]
  {
    var a, b := s[..t], s[t + 1..];
    assert s == a + ([s[t]] + b) && s[t := w] == a + ([w] + b);
    SelectConcat(a, [s[t]] + b, p);
    SelectConcat(a, [w] + b, p);
    assert ([s[t]] + b)[1..] == b && ([w] + b)[1..] == b;
  }

  /** An update by a sibling leaves the children that the entry owns, and the key. */
  lemma SiblingKeepsOwn(v: Json, w: Json, e: Entry, f: Entry)
    requires Siblings(e, f) && v.Obj? && HasObjects(v, e.nestedField) && HasObjects(v, f.nestedField)
    requires Updated(w, e) && OwnPartOnly(v, w, e)
    ensures HasObjects(w, f.nestedField) && HasOwnKeys(w, f)
    ensures Select(Get(w, f.nestedField).items, OwnChild(f)) == Select(Get(v, f.nestedField).items, OwnChild(f))
  {
    forall i | 0 <= i < |f.keyFields| ensures Get(w, f.keyFields[i]) == Get(f.value, f.keyFields[i]) {
      assert KeyOf(e.value, e.keyFields)[i] == KeyOf(f.value, f.keyFields)[i];
    }
    if e.nestedField == f.nestedField {
      var a, b := Get(v, f.nestedField).items, Get(w, f.nestedField).items;
      SelectSelect(a, Not(OwnChild(e)), OwnChild(f));
      SelectSelect(b, Not(OwnChild(e)), OwnChild(f));
    }
  }

  lemma OwnsIfSelected(v: Json, f: Entry)
    requires Match(f)(v) && HasObjects(v, f.nestedField)
    ensures Owner(f)(v) <==> Select(Get(v, f.nestedField).items, OwnChild(f)) != []
  {
    var children := Get(v, f.nestedField).items;
    if Owner(f)(v) {
      var c :| c in children && OwnChild(f)(c);
      assert c in Select(children, OwnChild(f));
    }
    if Select(children, OwnChild(f)) != [] {
      var c := Select(children, OwnChild(f))[0];
      assert c in Select(children, OwnChild(f));
      assert c in children && OwnChild(f)(c);
    }
  }

  /** A settled nested entry has one owner, which is up to date. */
  lemma SettledOwner(values: seq<Json>, f: Entry) returns (v: Json)
    requires f.nestedField != "" && Settled(Select(values, Match(f)), f)
    ensures v in values && Match(f)(v) && Updated(v, f) && Select(values, Owner(f)) == [v]
  {
    var matches := Select(values, Match(f));
    v :| v in matches && Select(matches, Eligible(matches, f)) == [v] && Updated(v, f);
    UpdatedOwns(v, f);
    assert v in Select(matches, Owner(f));
    SelectSelect(values, Match(f), Owner(f));
  }

  lemma SiblingStaysSettled(values: seq<Json>, e: Entry, f: Entry)
    requires e.value.Obj? && f.value.Obj? && Siblings(e, f) && UpdateList(values, e).Ok?
    requires Settled(Select(values, Match(f)), f)
    ensures Settled(Select(UpdateList(values, e).value.0, Match(f)), f)
  {
    hide UpdateList, Updated, OwnPartOnly, HasObjects, Eligible, OwnChild;
    var v := SettledOwner(values, f);
    SharedOwner(values, e, f, v);
    var t := NestedKeeps(values, e);
    var after := UpdateList(values, e).value.0;
    SiblingTouched(values[t], after[t], e, f, Select(values, Match(f)));
    OwnerAfter(values, t, after[t], f, v);
    var u := if Owner(f)(after[t]) then after[t] else v;
    var matches := Select(after, Match(f));
    SelectSelect(after, Match(f), Owner(f));
    forall m | m in matches ensures HasObjects(m, f.nestedField) {
      if m != after[t] { assert m in Select(values, Match(f)); }
    }
    assert u in Select(after, Owner(f));
    if u != v { assert values[t] == v; KeptIsUpdated(values[t], after[t], f); }
    OneOwner(matches, f, u);
  }

  /** What an update by a sibling makes of the element that it touches. */
  lemma SiblingTouched(had: Json, w: Json, e: Entry, f: Entry, matches: seq<Json>)
    requires Siblings(e, f) && Match(e)(had) && HasObjects(had, e.nestedField) && Updated(w, e)
             && OwnPartOnly(had, w, e)
    requires forall m | m in matches :: HasObjects(m, f.nestedField)
    requires Match(f)(had) ==> had in matches
    ensures w.Obj? && HasObjects(w, f.nestedField) && HasOwnKeys(w, f) && HasObjects(had, f.nestedField)
    ensures Select(Get(w, f.nestedField).items, OwnChild(f)) == Select(Get(had, f.nestedField).items, OwnChild(f))
    ensures Owner(f)(had) == Owner(f)(w)
  {
    hide Updated, OwnPartOnly, HasObjects, OwnChild;
    assert Match(f)(had) == Match(e)(had);
    SiblingKeepsOwn(had, w, e, f);
    UpdatedMatches(w, e);
    assert Match(f)(w) == Match(e)(w);
    OwnsIfSelected(had, f);
    OwnsIfSelected(w, f);
  }

  lemma OwnerAfter(values: seq<Json>, t: nat, w: Json, f: Entry, v: Json)
    requires t < |values| && Select(values, Owner(f)) == [v] && Owner(f)(values[t]) == Owner(f)(w)
    ensures Select(values[t := w], Owner(f)) == [if Owner(f)(w) then w else v]
    ensures Owner(f)(w) ==> values[t] == v
  {
    hide Owner;
    SelectReplaced(values, t, w, Owner(f));
  }

  lemma KeptIsUpdated(v: Json, w: Json, f: Entry)
    requires Updated(v, f) && w.Obj? && HasObjects(w, f.nestedField) && HasOwnKeys(w, f)
    requires Select(Get(w, f.nestedField).items, OwnChild(f)) == Select(Get(v, f.nestedField).items, OwnChild(f))
    ensures Updated(w, f)
  {}

  lemma UpdatedMatches(w: Json, e: Entry)
    requires Updated(w, e)
    ensures w.Obj? && Match(e)(w)
  {
    UpdatedOwns(w, e);
  }

  /** The element that a settled sibling has there can take the child too. */
  lemma SharedOwner(values: seq<Json>, e: Entry, f: Entry, v: Json)
    requires Siblings(e, f) && v in values && Updated(v, f)
    ensures Select(values, Eligible(values, e)) != []
  {
    OwnKeysAreKey(v, f);
    assert OwnKey(e)(v);
    assert v in Select(values, OwnKey(e));
  }

  lemma ListStaysSettled(values: seq<Json>, e: Entry, f: Entry)
    requires e.value.Obj? && f.value.Obj? && Compatible(e, f) && UpdateList(values, e).Ok?
    requires UpdateList(values, f) == Ok((values, false))
    ensures var after := UpdateList(values, e).value.0; UpdateList(after, f) == Ok((after, false))
  {
    Idle(values, f);
    Idle(UpdateList(values, e).value.0, f);
    if Disjoint(e, f) { DisjointStaysSettled(values, e, f); } else { SiblingStaysSettled(values, e, f); }
  }

  lemma DisjointStaysSettled(values: seq<Json>, e: Entry, f: Entry)
    requires e.value.Obj? && f.value.Obj? && Disjoint(e, f) && UpdateList(values, e).Ok?
    requires UpdateList(values, f) == Ok((values, false))
    ensures var after := UpdateList(values, e).value.0; UpdateList(after, f) == Ok((after, false))
  {
    var after := UpdateList(values, e).value.0;
    forall v | Match(f)(v) ensures !Match(e)(v) {
      assert KeyOf(v, f.keyFields) in Accepted(f);
    }
    UpdateKeeps(values, e, Match(f));
    Idle(values, f);
    Idle(after, f);
  }

  /** A settled entry stays settled while another one is merged, also when their paths overlap. */
  lemma {:induction false} StaysSettled(doc: Json, p: Path, e: Entry, q: Path, f: Entry)
    requires doc.Obj? && p != [] && q != [] && e.value.Obj? && f.value.Obj?
    requires SettledAt(doc, q, f) && MergeAt(doc, p, e).Ok? && (p == q ==> Compatible(e, f))
    ensures var merged := MergeAt(doc, p, e).value.0; merged.Obj? && SettledAt(merged, q, f)
    decreases |p|
  {
    var merged := MergeAt(doc, p, e).value.0;
    var found := Get(doc, q[0]);
    assert found != Null;
    if p[0] != q[0] {
      assert Get(merged, q[0]) == found;
      assert merged.fields[q[0] := found] == merged.fields;
      SettledChild(doc, merged, q, f);
    } else if |p| == 1 && |q| == 1 {
      assert p == q;
      ListStaysSettled(found.items, e, f);
      var after := UpdateList(found.items, e).value.0;
      assert Get(merged, q[0]) == Arr(after);
      assert merged.fields[q[0] := Arr(after)] == merged.fields;
    } else {
      assert |p| > 1 && |q| > 1;
      assert p == [p[0]] + p[1..] && q == [q[0]] + q[1..];
      SettledInside(doc, q, f);
      StaysSettled(found, p[1..], e, q[1..], f);
      var inner := MergeAt(found, p[1..], e).value.0;
      assert Get(merged, q[0]) == inner;
      assert merged.fields[q[0] := inner] == merged.fields;
    }
  }

  lemma SettledInside(doc: Json, q: Path, f: Entry)
    requires doc.Obj? && |q| > 1 && SettledAt(doc, q, f)
    ensures Get(doc, q[0]).Obj? && SettledAt(Get(doc, q[0]), q[1..], f)
  {
    var found := Get(doc, q[0]);
    var inner := MergeAt(found, q[1..], f).value.0;
    assert doc.fields[q[0] := inner][q[0]] == inner;
  }

  /** Whether an entry is settled depends on the first field of its path alone. */
  lemma SettledChild(doc: Json, merged: Json, q: Path, f: Entry)
    requires doc.Obj? && merged.Obj? && q != [] && SettledAt(doc, q, f) && f.value.Obj?
    requires Get(merged, q[0]) == Get(doc, q[0])
    ensures SettledAt(merged, q, f)
  {
    var found := Get(doc, q[0]);
    assert merged.fields[q[0] := found] == merged.fields;
    if |q| == 1 {
      var after := UpdateList(found.items, f).value.0;
      Idle(found.items, f);
    } else {
      SettledInside(doc, q, f);
    }
  }

  // ---- all entries ----

  ghost predicate AllSettled(doc: Json, es: seq<Entry>)
    requires doc.Obj? && forall e | e in es :: e.path != []
  {
    forall e | e in es :: SettledAt(doc, e.path, e)
  }

  ghost predicate Separate(es: seq<Entry>) {
    forall i, j | 0 <= i < j < |es| && es[i].path == es[j].path :: Compatible(es[i], es[j])
  }

  lemma {:induction false} SettledIsIdle(doc: Json, es: seq<Entry>)
    requires doc.Obj? && (forall e | e in es :: e.path != [] && e.value.Obj?) && AllSettled(doc, es)
    ensures MergeAll(doc, es) == Ok((doc, false))
  {
    if es != [] { SettledIsIdle(doc, es[..|es| - 1]); }
  }

  lemma OneMoreSettles(before: Json, es: seq<Entry>, e: Entry)
    requires before.Obj? && es != [] && (forall x | x in es :: x.path != [] && x.value.Obj?) && Separate(es)
    requires var last := es[|es| - 1]; MergeAt(before, last.path, last).Ok?
    requires e in es[..|es| - 1] && SettledAt(before, e.path, e)
    ensures var last := es[|es| - 1];
            var merged := MergeAt(before, last.path, last).value.0;
            merged.Obj? && SettledAt(merged, e.path, e)
  {
    var last := es[|es| - 1];
    var i :| 0 <= i < |es| - 1 && es[i] == e;
    assert es[i].path == last.path ==> Compatible(es[i], last);
    assert last.path == e.path ==> Compatible(last, e);
    StaysSettled(before, last.path, last, e.path, e);
  }

  lemma {:induction false} MergeSettles(doc: Json, es: seq<Entry>)
    requires doc.Obj? && (forall e | e in es :: e.path != [] && e.value.Obj?) && Separate(es) && MergeAll(doc, es).Ok?
    ensures AllSettled(MergeAll(doc, es).value.0, es)
    ensures !MergeAll(doc, es).value.1 ==> MergeAll(doc, es).value.0 == doc
  {
    if es != [] {
      var rest, last := es[..|es| - 1], es[|es| - 1];
      MergeSettles(doc, rest);
      var before := MergeAll(doc, rest).value.0;
      MergeAtSettles(before, last.path, last);
      forall e | e in es ensures SettledAt(MergeAll(doc, es).value.0, e.path, e) {
        if e in rest { OneMoreSettles(before, es, e); }
      }
    }
  }

  /**
   Entries that accept different keys or own different children: the second merge changes nothing, and the flag tells
   whether the first did.
   */
  lemma MergeIsIdempotent(doc: Json, entries: seq<Entry>)
    requires doc.Obj? && Merge(doc, entries).Ok? && Separate(Group(entries).value)
    ensures var (merged, changed) := Merge(doc, entries).value;
            merged.Obj? && Merge(merged, entries) == Ok((merged, false)) && (changed <==> merged != doc)
  {
    var grouped := Group(entries).value;
    GroupIsValid(entries);
    MergeSettles(doc, grouped);
    SettledIsIdle(MergeAll(doc, grouped).value.0, grouped);
  }

  // ---- grouping ----

  /** The entry is represented: one of the same identity asks for the same value. */
  predicate Represents(g: Entry, e: Entry) {
    SameIdentity(g, e) && g.value == e.value
  }

  lemma {:induction false} AddedIff(grouped: seq<Entry>, e: Entry)
    requires forall g, h | g in grouped && h in grouped && SameIdentity(g, h) :: g.value == h.value
    ensures Add(grouped, e).Ok? <==> forall g | g in grouped && SameIdentity(g, e) :: g.value == e.value
  {
    hide Identity;
    if grouped != [] {
      AddedIff(grouped[1..], e);
      assert forall g :: g in grouped <==> g == grouped[0] || g in grouped[1..];
    }
  }

  ghost predicate AllRepresented(grouped: seq<Entry>, entries: seq<Entry>) {
    forall e | e in entries :: exists g | g in grouped :: Represents(g, e)
  }

  lemma Representative(grouped: seq<Entry>, entries: seq<Entry>, e: Entry) returns (g: Entry)
    requires AllRepresented(grouped, entries) && e in entries
    ensures g in grouped && Represents(g, e)
  {
    hide Represents;
    g :| g in grouped && Represents(g, e);
  }

  lemma FirstReplaced(first: Entry, e: Entry, rest: seq<Entry>)
    requires Represents(e, first)
    ensures AllRepresented([e] + rest, [first] + rest)
  {
    var all := [e] + rest;
    forall g | g in [first] + rest ensures exists h | h in all :: Represents(h, g) {
      if g == first { assert e in all; } else { assert g in all && Represents(g, g); }
    }
  }

  lemma FirstKept(first: Entry, after: seq<Entry>, before: seq<Entry>)
    requires AllRepresented(after, before)
    ensures AllRepresented([first] + after, [first] + before)
  {
    var all := [first] + after;
    forall g | g in [first] + before ensures exists h | h in all :: Represents(h, g) {
      if g == first {
        assert first in all && Represents(first, first);
      } else {
        var h := Representative(after, before, g);
        assert h in all;
      }
    }
  }

  lemma {:induction false} AddedRepresents(grouped: seq<Entry>, e: Entry) returns (h: Entry)
    requires Add(grouped, e).Ok?
    ensures AllRepresented(Add(grouped, e).value, grouped)
    ensures h in Add(grouped, e).value && Represents(h, e)
    ensures forall g | g in Add(grouped, e).value :: g in grouped || Represents(g, e)
  {
    hide AllRepresented, Identity;
    if grouped == [] {
      h := e;
      NoneRepresented([e]);
    } else if SameIdentity(grouped[0], e) {
      h := Add(grouped, e).value[0];
      SameAdopting(e, h);
      FirstReplaced(grouped[0], h, grouped[1..]);
      assert grouped == [grouped[0]] + grouped[1..];
    } else {
      h := AddedRepresents(grouped[1..], e);
      FirstKept(grouped[0], Add(grouped[1..], e).value, grouped[1..]);
      assert grouped == [grouped[0]] + grouped[1..];
    }
  }

  lemma NoneRepresented(grouped: seq<Entry>)
    ensures AllRepresented(grouped, [])
  {}

  lemma SameAdopting(e: Entry, h: Entry)
    requires h == e.(adopt := h.adopt, adoptKeys := h.adoptKeys)
    ensures Represents(h, e)
  {}

  /** All entries are valid, and those of one identity ask for the same value. */
  ghost predicate Groupable(entries: seq<Entry>) {
    && (forall e | e in entries :: ValidEntry(e))
    && (forall e, f | e in entries && f in entries && SameIdentity(e, f) :: e.value == f.value)
  }

  /** Every entry is represented, and nothing else is. */
  ghost predicate Covers(grouped: seq<Entry>, entries: seq<Entry>) {
    AllRepresented(grouped, entries) && forall g | g in grouped :: exists e | e in entries :: Represents(g, e)
  }

  /**
   Entries are merged at all exactly when they are valid and agree with each other: two entries for different children
   of one outer element, found by the same key fields, are refused.
   */
  lemma {:induction false} GroupedIff(entries: seq<Entry>)
    ensures Group(entries).Ok? <==> Groupable(entries)
    ensures Group(entries).Ok? ==> Covers(Group(entries).value, entries)
  {
    hide ValidEntry, SameIdentity, Add, Covers;
    if entries == [] {
      NothingCovers();
    } else {
      var rest, last := entries[..|entries| - 1], entries[|entries| - 1];
      GroupedIff(rest);
      assert forall e :: e in entries <==> e == last || e in rest;
      if Group(rest).Ok? && ValidEntry(last) { AddedGroupable(entries, rest, last, Group(rest).value); }
    }
  }

  lemma Represented(grouped: seq<Entry>, entries: seq<Entry>, g: Entry) returns (e: Entry)
    requires Covers(grouped, entries) && g in grouped
    ensures e in entries && Represents(g, e)
  {
    hide Represents, AllRepresented;
    e :| e in entries && Represents(g, e);
  }

  lemma CoversAll(grouped: seq<Entry>, entries: seq<Entry>)
    requires Covers(grouped, entries)
    ensures AllRepresented(grouped, entries)
  {}

  lemma CoversIf(grouped: seq<Entry>, entries: seq<Entry>)
    requires AllRepresented(grouped, entries) && forall g | g in grouped :: exists e | e in entries :: Represents(g, e)
    ensures Covers(grouped, entries)
  {}

  lemma NothingCovers()
    ensures Covers([], [])
  {}

  lemma CoveringAgrees(grouped: seq<Entry>, entries: seq<Entry>)
    requires Groupable(entries) && Covers(grouped, entries)
    ensures forall g, h | g in grouped && h in grouped && SameIdentity(g, h) :: g.value == h.value
  {
    hide ValidEntry, Identity, Covers, AllRepresented;
    forall g, h | g in grouped && h in grouped && SameIdentity(g, h) ensures g.value == h.value {
      var d := Represented(grouped, entries, g);
      var e := Represented(grouped, entries, h);
      assert SameIdentity(d, e);
    }
  }

  /** An entry agrees with the others exactly when it agrees with what represents them. */
  lemma AgreesIff(grouped: seq<Entry>, entries: seq<Entry>, last: Entry)
    requires Covers(grouped, entries)
    ensures (forall g | g in grouped && SameIdentity(g, last) :: g.value == last.value)
       <==> forall e | e in entries && SameIdentity(e, last) :: e.value == last.value
  {
    hide Identity, Covers, AllRepresented;
    if g :| g in grouped && SameIdentity(g, last) && g.value != last.value {
      var e := Represented(grouped, entries, g);
      assert SameIdentity(e, last);
    }
    if e :| e in entries && SameIdentity(e, last) && e.value != last.value {
      CoversAll(grouped, entries);
      var g := Representative(grouped, entries, e);
      assert SameIdentity(g, last);
    }
  }

  lemma GroupableMore(entries: seq<Entry>, rest: seq<Entry>, last: Entry)
    requires Groupable(rest) && ValidEntry(last) && forall e :: e in entries <==> e == last || e in rest
    ensures Groupable(entries) <==> forall e | e in rest && SameIdentity(e, last) :: e.value == last.value
  {
    hide ValidEntry, Identity;
  }

  lemma AddedCovers(entries: seq<Entry>, rest: seq<Entry>, last: Entry, grouped: seq<Entry>)
    requires Covers(grouped, rest) && Add(grouped, last).Ok? && forall e :: e in entries <==> e == last || e in rest
    ensures Covers(Add(grouped, last).value, entries)
  {
    hide Add, Identity, Covers, AllRepresented;
    var added := Add(grouped, last).value;
    CoversAll(grouped, rest);
    var h := AddedRepresents(grouped, last);
    AddedRepresentsAll(added, grouped, entries, rest, last, h);
    forall g | g in added ensures exists e | e in entries :: Represents(g, e) {
      if g in grouped { var e := Represented(grouped, rest, g); assert e in entries; } else { assert last in entries; }
    }
    CoversIf(added, entries);
  }

  lemma AddedRepresentsAll(added: seq<Entry>, grouped: seq<Entry>, entries: seq<Entry>, rest: seq<Entry>, last: Entry,
                           h: Entry)
    requires AllRepresented(grouped, rest) && AllRepresented(added, grouped) && h in added && Represents(h, last)
    requires forall e :: e in entries <==> e == last || e in rest
    ensures AllRepresented(added, entries)
  {
    hide Identity;
    forall e | e in entries ensures exists g | g in added :: Represents(g, e) {
      if e in rest { var g := RepresentedTwice(added, grouped, rest, e); }
    }
  }

  lemma RepresentedTwice(added: seq<Entry>, grouped: seq<Entry>, rest: seq<Entry>, e: Entry) returns (g: Entry)
    requires AllRepresented(grouped, rest) && AllRepresented(added, grouped) && e in rest
    ensures g in added && Represents(g, e)
  {
    hide Identity, AllRepresented;
    var h := Representative(grouped, rest, e);
    g := Representative(added, grouped, h);
  }

  lemma AddedGroupable(entries: seq<Entry>, rest: seq<Entry>, last: Entry, grouped: seq<Entry>)
    requires Groupable(rest) && ValidEntry(last) && forall e :: e in entries <==> e == last || e in rest
    requires Covers(grouped, rest)
    ensures Add(grouped, last).Ok? <==> Groupable(entries)
    ensures Add(grouped, last).Ok? ==> Covers(Add(grouped, last).value, entries)
  {
    hide *;
    CoveringAgrees(grouped, rest);
    AddedIff(grouped, last);
    AgreesIff(grouped, rest, last);
    GroupableMore(entries, rest, last);
    if Add(grouped, last).Ok? { AddedCovers(entries, rest, last, grouped); }
  }

  // ---- conservation ----

  function ItemsAt(doc: Json, path: Path): seq<Json> {
    if path == [] then ListIn(doc)
    else if doc.Obj? && path[0] in doc.fields then ItemsAt(doc.fields[path[0]], path[1..])
    else []
  }

  lemma {:induction false} MergeAtKeeps(doc: Json, p: Path, e: Entry, q: Path, g: Json -> bool)
    requires doc.Obj? && p != [] && e.value.Obj? && MergeAt(doc, p, e).Ok?
    requires p == q ==> forall v | g(v) :: !Match(e)(v)
    ensures Select(ItemsAt(MergeAt(doc, p, e).value.0, q), g) == Select(ItemsAt(doc, q), g)
    decreases |p|
  {
    if q != [] && p[0] == q[0] {
      var merged, found := MergeAt(doc, p, e).value.0, Get(doc, q[0]);
      assert ItemsAt(merged, q) == ItemsAt(Get(merged, q[0]), q[1..]);
      assert ItemsAt(doc, q) == ItemsAt(found, q[1..]);
      if |p| == 1 {
        if |q| == 1 {
          assert p == q;
          UpdateKeeps(ListIn(found), e, g);
        }
      } else {
        assert p == [p[0]] + p[1..] && q == [q[0]] + q[1..];
        MergeAtKeeps(ObjectIn(found), p[1..], e, q[1..], g);
      }
    }
  }

  /** In every list, whatever no entry for that list matches is kept, all of it, unchanged and in order. */
  lemma {:induction false} MergeKeeps(doc: Json, es: seq<Entry>, q: Path, g: Json -> bool)
    requires doc.Obj? && (forall e | e in es :: e.path != [] && e.value.Obj?) && MergeAll(doc, es).Ok?
    requires forall e, v | e in es && e.path == q && g(v) :: !Match(e)(v)
    ensures Select(ItemsAt(MergeAll(doc, es).value.0, q), g) == Select(ItemsAt(doc, q), g)
  {
    if es != [] {
      var rest, last := es[..|es| - 1], es[|es| - 1];
      MergeKeeps(doc, rest, q, g);
      MergeAtKeeps(MergeAll(doc, rest).value.0, last.path, last, q, g);
    }
  }

  // ---- what is kept of an outer element, over all entries ----

  predicate Nested(e: Entry, es: seq<Entry>) {
    e in es && e.nestedField != ""
  }

  /** A child that no entry for this nested list owns. */
  function Stranger(es: seq<Entry>, field: string): Json -> bool {
    c => forall e | e in es && e.nestedField == field :: !OwnChild(e)(c)
  }

  /** A field that no nested entry writes: it is no nested list of one, and no key field. */
  ghost predicate Foreign(es: seq<Entry>, field: string) {
    forall e | Nested(e, es) :: field != e.nestedField && field !in e.keyFields
  }

  ghost predicate KeyField(es: seq<Entry>, field: string) {
    exists e | Nested(e, es) :: field in e.keyFields
  }

  /**
   What becomes of an outer element: the fields that no entry writes stay, and in a nested list that is no key field
   all children that no entry owns stay, unchanged and in order.
   */
  ghost predicate Preserved(v: Json, w: Json, es: seq<Entry>) {
    v == w ||
    (v.Obj? && w.Obj?
     && (forall n | Foreign(es, n) :: (n in w.fields <==> n in v.fields) && Get(w, n) == Get(v, n))
     && (forall f | !KeyField(es, f) ::
        Select(ListIn(Get(w, f)), Stranger(es, f)) == Select(ListIn(Get(v, f)), Stranger(es, f))))
  }

  lemma PreservedTwice(u: Json, v: Json, w: Json, es: seq<Entry>)
    requires Preserved(u, v, es) && Preserved(v, w, es)
    ensures Preserved(u, w, es)
  {
  }

  lemma OwnPartPreserves(v: Json, w: Json, e: Entry, es: seq<Entry>)
    requires Nested(e, es) && v.Obj? && HasObjects(v, e.nestedField) && w.Obj? && HasObjects(w, e.nestedField)
             && OwnPartOnly(v, w, e)
    ensures Preserved(v, w, es)
  {
    forall f | !KeyField(es, f)
      ensures Select(ListIn(Get(w, f)), Stranger(es, f)) == Select(ListIn(Get(v, f)), Stranger(es, f))
    {
      assert f !in e.keyFields;
      if f == e.nestedField {
        var a, b := Get(v, f).items, Get(w, f).items;
        SelectSelect(a, Not(OwnChild(e)), Stranger(es, f));
        SelectSelect(b, Not(OwnChild(e)), Stranger(es, f));
      }
    }
  }

  // ---- what becomes of the elements of a list ----

  type Fates = seq<Option<nat>>

  /** A value of the program's own: what a flat entry asks for, or an earlier value that it adopts. */
  ghost predicate Owned(v: Json, es: seq<Entry>) {
    exists e | e in es && e.nestedField == "" :: v == e.value || v in e.adopt
  }

  /**
   Every element of the list is found again at its place in the new list, in the old order, with all that is the user's
   in it; or it had become a value of the program's own.
   */
  ghost predicate Carried(a: seq<Json>, b: seq<Json>, fates: Fates, es: seq<Entry>) {
    && |fates| == |a|
    && (forall i | 0 <= i < |a| && fates[i].Some? :: fates[i].value < |b| && Preserved(a[i], b[fates[i].value], es))
    && (forall i, j | 0 <= i < j < |a| && fates[i].Some? && fates[j].Some? :: fates[i].value < fates[j].value)
    && (forall i | 0 <= i < |a| && fates[i].None? :: exists u :: Preserved(a[i], u, es) && Owned(u, es))
  }

  function Stay(n: nat): Fates {
    seq(n, i requires 0 <= i < n => Some(i))
  }

  /** Where the elements go when all those that satisfy `p` are replaced by one, from place `at` on. */
  function Removed(s: seq<Json>, p: Json -> bool, at: nat): Fates {
    if s == [] then []
    else if p(s[0]) then [None] + Removed(s[1..], p, at)
    else [Some(at)] + Removed(s[1..], p, at + 1)
  }

  /** The elements with a place are found at it in `b`, in their order from `at` on; only the chosen ones have none. */
  ghost predicate Arrive(s: seq<Json>, r: Fates, p: Json -> bool, at: nat, b: seq<Json>) {
    && |r| == |s|
    && (forall i | 0 <= i < |s| && r[i].Some? :: at <= r[i].value < |b| && b[r[i].value] == s[i])
    && (forall i, j | 0 <= i < j < |s| && r[i].Some? && r[j].Some? :: r[i].value < r[j].value)
    && (forall i | 0 <= i < |s| && r[i].None? :: p(s[i]))
  }

  lemma ArriveOneMore(s: seq<Json>, r: Fates, p: Json -> bool, at: nat, b: seq<Json>)
    requires s != [] && Arrive(s[1..], r, p, at + 1, b) && at < |b| && b[at] == s[0]
    ensures Arrive(s, [Some(at)] + r, p, at, b)
  {
    var all := [Some(at)] + r;
    assert forall i | 0 < i < |s| :: all[i] == r[i - 1] && s[i] == s[1..][i - 1];
  }

  lemma ArriveOneLess(s: seq<Json>, r: Fates, p: Json -> bool, at: nat, from: nat, b: seq<Json>)
    requires s != [] && Arrive(s[1..], r, p, from, b) && at <= from && p(s[0])
    ensures Arrive(s, [None] + r, p, at, b)
  {
    var all := [None] + r;
    assert forall i | 0 < i < |s| :: all[i] == r[i - 1] && s[i] == s[1..][i - 1];
  }

  lemma EmptyArrives(p: Json -> bool, at: nat, b: seq<Json>)
    ensures Arrive([], [], p, at, b)
  {}

  /** `w` stands in `b` from `at` on. */
  ghost predicate Lies(w: seq<Json>, at: nat, b: seq<Json>) {
    at + |w| <= |b| && forall i | 0 <= i < |w| :: b[at + i] == w[i]
  }

  lemma LiesBehind(w: seq<Json>, at: nat, b: seq<Json>)
    requires w != [] && Lies(w, at, b)
    ensures at < |b| && b[at] == w[0] && Lies(w[1..], at + 1, b)
  {
    assert b[at + 0] == w[0];
    forall i | 0 <= i < |w| - 1 ensures b[at + 1 + i] == w[1..][i] { assert b[at + (i + 1)] == w[i + 1]; }
  }

  lemma {:induction false} RemovedIn(s: seq<Json>, p: Json -> bool, at: nat, b: seq<Json>)
    requires Lies(Select(s, Not(p)), at, b)
    ensures Arrive(s, Removed(s, p, at), p, at, b)
  {
    hide Lies, Arrive;
    if s == [] {
      EmptyArrives(p, at, b);
    } else if p(s[0]) {
      RemovedIn(s[1..], p, at, b);
      ArriveOneLess(s, Removed(s[1..], p, at), p, at, at, b);
    } else {
      var w := Select(s, Not(p));
      assert w[0] == s[0] && w[1..] == Select(s[1..], Not(p));
      LiesBehind(w, at, b);
      RemovedIn(s[1..], p, at + 1, b);
      ArriveOneMore(s, Removed(s[1..], p, at + 1), p, at, b);
    }
  }

  /** Where the elements go when the first that satisfies `p` is replaced and the later ones are removed. */
  function KeptOne(s: seq<Json>, p: Json -> bool, at: nat): Fates {
    if s == [] then []
    else if p(s[0]) then [None] + Removed(s[1..], p, at + 1)
    else [Some(at)] + KeptOne(s[1..], p, at + 1)
  }

  lemma {:induction false} KeptOneIn(s: seq<Json>, p: Json -> bool, x: Json, at: nat, b: seq<Json>)
    requires Lies(KeepOne(s, p, x), at, b)
    ensures Arrive(s, KeptOne(s, p, at), p, at, b)
  {
    hide Lies, Arrive;
    if s == [] {
      EmptyArrives(p, at, b);
    } else {
      var k := KeepOne(s, p, x);
      LiesBehind(k, at, b);
      if p(s[0]) {
        assert k[1..] == Select(s[1..], Not(p));
        RemovedIn(s[1..], p, at + 1, b);
        ArriveOneLess(s, Removed(s[1..], p, at + 1), p, at, at + 1, b);
      } else {
        assert k[0] == s[0] && k[1..] == KeepOne(s[1..], p, x);
        KeptOneIn(s[1..], p, x, at + 1, b);
        ArriveOneMore(s, KeptOne(s[1..], p, at + 1), p, at, b);
      }
    }
  }

  lemma FlatCarries(values: seq<Json>, e: Entry, es: seq<Entry>) returns (fates: Fates)
    requires e in es && e.nestedField == "" && UpdateList(values, e).Ok?
    ensures Carried(values, UpdateList(values, e).value.0, fates, es)
  {
    if Select(values, Match(e)) == [] {
      fates := Stay(|values|);
    } else {
      fates := KeptOne(values, Match(e), 0);
      var after := UpdateList(values, e).value.0;
      assert after == KeepOne(values, Match(e), e.value);
      assert Lies(after, 0, after);
      KeptOneIn(values, Match(e), e.value, 0, after);
      forall i | 0 <= i < |values| && fates[i].None? ensures exists u :: Preserved(values[i], u, es) && Owned(u, es) {
        assert values[i] in Select(values, Match(e));
        assert Preserved(values[i], values[i], es) && Owned(values[i], es);
      }
    }
  }

  lemma NestedCarries(values: seq<Json>, e: Entry, es: seq<Entry>) returns (fates: Fates)
    requires e in es && e.nestedField != "" && e.value.Obj? && UpdateList(values, e).Ok?
    ensures Carried(values, UpdateList(values, e).value.0, fates, es)
  {
    hide UpdateList, Preserved, Owned, OwnPartOnly;
    fates := Stay(|values|);
    var after := UpdateList(values, e).value.0;
    var t := NestedKeeps(values, e);
    if t == |values| {
      SamePreserves(values, es);
    } else {
      OwnPartPreserves(values[t], after[t], e, es);
      SamePreserves(values, es);
    }
  }

  lemma SamePreserves(values: seq<Json>, es: seq<Entry>)
    ensures forall v | v in values :: Preserved(v, v, es)
  {}

  lemma UpdateCarries(values: seq<Json>, e: Entry, es: seq<Entry>) returns (fates: Fates)
    requires e in es && e.value.Obj? && UpdateList(values, e).Ok?
    ensures Carried(values, UpdateList(values, e).value.0, fates, es)
  {
    if e.nestedField == "" { fates := FlatCarries(values, e, es); } else { fates := NestedCarries(values, e, es); }
  }

  function Then(f: Fates, g: Fates): Fates {
    seq(|f|, i requires 0 <= i < |f| => if f[i].Some? && f[i].value < |g| then g[f[i].value] else None)
  }

  lemma CarriedTwice(a: seq<Json>, b: seq<Json>, c: seq<Json>, f: Fates, g: Fates, es: seq<Entry>)
    requires Carried(a, b, f, es) && Carried(b, c, g, es)
    ensures Carried(a, c, Then(f, g), es)
  {
    hide Preserved, Owned;
    var h := Then(f, g);
    forall i | 0 <= i < |a| && h[i].Some? ensures h[i].value < |c| && Preserved(a[i], c[h[i].value], es) {
      PreservedTwice(a[i], b[f[i].value], c[h[i].value], es);
    }
    forall i | 0 <= i < |a| && h[i].None? ensures exists u :: Preserved(a[i], u, es) && Owned(u, es) {
      if f[i].Some? {
        var u :| Preserved(b[f[i].value], u, es) && Owned(u, es);
        PreservedTwice(a[i], b[f[i].value], u, es);
      }
    }
  }

  // ---- over the whole document ----

  lemma {:induction false} ItemsUpdated(doc: Json, p: Path, e: Entry)
    requires doc.Obj? && p != [] && MergeAt(doc, p, e).Ok?
    ensures UpdateList(ItemsAt(doc, p), e).Ok?
    ensures ItemsAt(MergeAt(doc, p, e).value.0, p) == UpdateList(ItemsAt(doc, p), e).value.0
    decreases |p|
  {
    hide UpdateList;
    var found := Get(doc, p[0]);
    var merged := MergeAt(doc, p, e).value.0;
    assert ItemsAt(merged, p) == ItemsAt(Get(merged, p[0]), p[1..]);
    assert ItemsAt(doc, p) == ItemsAt(found, p[1..]);
    if |p| > 1 { ItemsUpdated(ObjectIn(found), p[1..], e); }
  }

  lemma ItemsElsewhere(doc: Json, p: Path, e: Entry, q: Path)
    requires doc.Obj? && p != [] && p != q && e.value.Obj? && MergeAt(doc, p, e).Ok?
    ensures ItemsAt(MergeAt(doc, p, e).value.0, q) == ItemsAt(doc, q)
  {
    var all: Json -> bool := v => true;
    MergeAtKeeps(doc, p, e, q, all);
    SelectsAll(ItemsAt(MergeAt(doc, p, e).value.0, q), all);
    SelectsAll(ItemsAt(doc, q), all);
  }

  function Only(es: seq<Entry>, q: Path): seq<Entry> {
    if es == [] then []
    else
      var last := es[|es| - 1];
      Only(es[..|es| - 1], q) + if last.path == q then [last] else []
  }

  lemma {:induction false} OnlyHas(es: seq<Entry>, q: Path)
    ensures forall e :: e in Only(es, q) <==> e in es && e.path == q
  {
    if es != [] {
      var n := |es| - 1;
      OnlyHas(es[..n], q);
      assert forall e :: e in es <==> e in es[..n] || e == es[n];
    }
  }

  lemma {:induction false} AllCarry(doc: Json, es: seq<Entry>, q: Path, all: seq<Entry>) returns (fates: Fates)
    requires doc.Obj? && (forall e | e in es :: e.path != [] && e.value.Obj?) && MergeAll(doc, es).Ok?
    requires forall e | e in es && e.path == q :: e in all
    ensures Carried(ItemsAt(doc, q), ItemsAt(MergeAll(doc, es).value.0, q), fates, all)
  {
    hide UpdateList, MergeAt, Carried, ItemsAt;
    if es == [] {
      fates := Stay(|ItemsAt(doc, q)|);
      NothingCarries(ItemsAt(doc, q), all);
    } else {
      var rest, last := es[..|es| - 1], es[|es| - 1];
      var first := AllCarry(doc, rest, q, all);
      var before := MergeAll(doc, rest).value.0;
      if last.path == q {
        ItemsUpdated(before, q, last);
        var second := UpdateCarries(ItemsAt(before, q), last, all);
        fates := Then(first, second);
        CarriedTwice(ItemsAt(doc, q), ItemsAt(before, q), ItemsAt(MergeAll(doc, es).value.0, q), first, second, all);
      } else {
        ItemsElsewhere(before, last.path, last, q);
        fates := first;
      }
    }
  }

  lemma NothingCarries(a: seq<Json>, es: seq<Entry>)
    ensures Carried(a, a, Stay(|a|), es)
  {}

  /**
   In every list, over all entries together: each element is found again, in the old order, with all fields that no
   entry for that list writes and all children that no such entry owns, unchanged and in order; an element that is gone
   had become a value of the program's own.
   */
  lemma MergeCarries(doc: Json, entries: seq<Entry>, q: Path) returns (fates: Fates)
    requires doc.Obj? && Merge(doc, entries).Ok?
    ensures Carried(ItemsAt(doc, q), ItemsAt(Merge(doc, entries).value.0, q), fates, Only(Group(entries).value, q))
  {
    hide Carried, ItemsAt, MergeAll;
    GroupIsValid(entries);
    var grouped := Group(entries).value;
    OnlyHas(grouped, q);
    fates := AllCarry(doc, grouped, q, Only(grouped, q));
  }

  lemma {:induction false} MergeAtSpares(doc: Json, p: Path, e: Entry, q: Path)
    requires doc.Obj? && p != [] && MergeAt(doc, p, e).Ok? && Apart(p, q)
    ensures ValueAt(MergeAt(doc, p, e).value.0, q) == ValueAt(doc, q)
    decreases |p|
  {
    hide UpdateList;
    if |p| > 1 && p[0] == q[0] {
      var found := Get(doc, p[0]);
      assert p == [p[0]] + p[1..] && q == [q[0]] + q[1..];
      assert q[1..] != [];
      MergeAtSpares(ObjectIn(found), p[1..], e, q[1..]);
      if !found.Obj? { assert ValueAt(found, q[1..]).None? && ValueAt(Obj(map[]), q[1..]).None?; }
    } else if |p| == 1 {
      assert p <= q <==> p[0] == q[0];
    }
  }

  lemma {:induction false} AllSpare(doc: Json, es: seq<Entry>, q: Path)
    requires doc.Obj? && (forall e | e in es :: e.path != [] && Apart(e.path, q)) && MergeAll(doc, es).Ok?
    ensures ValueAt(MergeAll(doc, es).value.0, q) == ValueAt(doc, q)
  {
    if es != [] {
      var rest, last := es[..|es| - 1], es[|es| - 1];
      AllSpare(doc, rest, q);
      MergeAtSpares(MergeAll(doc, rest).value.0, last.path, last, q);
    }
  }

  lemma {:induction false} GroupedPaths(entries: seq<Entry>)
    requires Group(entries).Ok?
    ensures forall g | g in Group(entries).value :: exists e | e in entries :: e.path == g.path
  {
    if entries != [] {
      var n := |entries| - 1;
      GroupedPaths(entries[..n]);
      AddedPaths(Group(entries[..n]).value, entries[n]);
    }
  }

  lemma {:induction false} AddedPaths(grouped: seq<Entry>, e: Entry)
    requires Add(grouped, e).Ok?
    ensures forall g | g in Add(grouped, e).value :: g.path == e.path || exists x | x in grouped :: x.path == g.path
  {
    if grouped != [] && !SameIdentity(grouped[0], e) { AddedPaths(grouped[1..], e); }
  }

  /** Everything of the user's that is on the way to no list of an entry, and in none, is kept. */
  lemma MergeKeepsTheRest(doc: Json, entries: seq<Entry>, q: Path)
    requires doc.Obj? && Merge(doc, entries).Ok? && forall e | e in entries :: Apart(e.path, q)
    ensures ValueAt(Merge(doc, entries).value.0, q) == ValueAt(doc, q)
  {
    GroupIsValid(entries);
    GroupedPaths(entries);
    AllSpare(doc, Group(entries).value, q);
  }
}

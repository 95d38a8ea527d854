/**
 What planning refuses and what it asks for, said with the project and the intents alone: a file of the user's is
 written over only when it is the program's own, or adopted, or expected to the letter, or merged into.
 */
module PlanRefusals {
  import opened Wrappers
  import opened JsonValues
  import opened Transaction
  import opened TransactionProofs
  import opened Planner
  import opened Ownership
  import ManagedFile
  import SharedBlock
  import JsonEntries
  import KeyedLists
  import Convergence

  // ---- one intent ----

  /** The file as a JSON object; an empty one when there is no file. */
  ghost predicate IsObject(c: Codec, t: Tree, path: Path, current: Json) {
    current.Obj? && if path in t.files then c.parse(t.files[path].content) == Some(current) else current == Obj(map[])
  }

  /** What is at the path may be made into what the intent wants. */
  ghost predicate MayWrite(c: Codec, t: Tree, i: Intent) {
    if i.DirectoryIntent? then i.path !in t.files
    else
      i.path !in t.dirs
      && match i
         case ManagedIntent(path, _, managed, adopt) =>
           path in t.files ==>
             var text := t.files[path].content;
             || Owned(c, text, managed.source, managed.style)
             || (Unmarked(c, text, managed.style) && c.digest(text) in adopt)
         case CreateOnlyIntent(_, _, _) => true
         case ExactFileIntent(path, _, _, expected) => path in t.files && c.digest(t.files[path].content) == expected
         case ExactDeleteIntent(path, mode, expected) =>
           path in t.files && c.digest(t.files[path].content) == expected && t.files[path].mode == mode
         case SharedBlockIntent(path, _, block) =>
           path in t.files ==> NoBlock(t.files[path].content) || HasOwnBlock(c, t.files[path].content, block.source)
         case SharedJsonIntent(path, _, entries) =>
           exists current :: IsObject(c, t, path, current) && JsonEntries.Merge(current, entries).Ok?
         case KeyedListIntent(path, _, lists) =>
           exists current :: IsObject(c, t, path, current) && KeyedLists.Merge(current, lists).Ok?
  }

  /**
   A merge into a JSON file gives the merged object as the file's text, and asks for nothing when it changes nothing.
   */
  ghost predicate PutsJson(c: Codec, existing: Option<File>, mode: int, op: Op, merged: Json, changed: bool) {
    match existing
    case None => op.state == Create && op.content == c.indented(merged) + "\n" && op.mode == mode
    case Some(file) =>
      op.mode == file.mode
      && if changed then op.state == Update && op.content == c.indented(merged) + "\n" else op.state == Unchanged
  }

  /** The operation that makes what is at the path into what the intent wants. */
  ghost predicate Puts(c: Codec, t: Tree, i: Intent, op: Op) {
    && op.path == i.path && (op.kind == Directory <==> i.DirectoryIntent?)
    && var existing := if i.path in t.files then Some(t.files[i.path]) else None;
       && (op.kind == Regular && !i.CreateOnlyIntent? ==>
             op.expected == if existing.Some? then Some(existing.value.content) else None)
       && (op.kind == Regular ==> (op.state == Create <==> existing.None?))
       && match i
          case DirectoryIntent(path, mode) =>
            op.mode == mode && op.state == if path in t.dirs then Unchanged else Create
          case ManagedIntent(_, mode, managed, _) =>
            ManagedFile.Render(c, managed) == Ok(op.content) && op.mode == mode
            && (existing.Some? ==> op.state == if existing == Some(File(op.content, mode)) then Unchanged else Update)
          case CreateOnlyIntent(_, mode, content) =>
            if existing.Some? then op.state == Unchanged && op.expected.None?
            else op.content == content && op.mode == mode
          case ExactFileIntent(_, mode, content, _) => op.state == Update && op.content == content && op.mode == mode
          case ExactDeleteIntent(_, mode, _) => op.state == Delete && op.mode == mode
          case SharedBlockIntent(_, mode, block) =>
            (match existing
             case None => op.content == SharedBlock.Render(c, block) && op.mode == mode
             case Some(file) =>
               SharedBlock.Merge(c, file.content, block) == Ok(op.content) && op.mode == file.mode
               && op.state == if op.content == file.content then Unchanged else Update)
          case SharedJsonIntent(path, mode, entries) =>
            exists current, merged, changed :: IsObject(c, t, path, current)
              && JsonEntries.Merge(current, entries) == Ok((merged, changed))
              && PutsJson(c, existing, mode, op, merged, changed)
          case KeyedListIntent(path, mode, lists) =>
            exists current, merged, changed :: IsObject(c, t, path, current)
              && KeyedLists.Merge(current, lists) == Ok((merged, changed))
              && PutsJson(c, existing, mode, op, merged, changed)
  }

  lemma ManagedIff(c: Codec, t: Tree, i: Intent)
    requires c.Valid() && i.ManagedIntent? && i.path !in t.dirs && ManagedFile.Render(c, i.managed).Ok?
    ensures PlanIntent(c, t, i).Ok? <==> MayWrite(c, t, i)
    ensures PlanIntent(c, t, i).Ok? ==> Puts(c, t, i, PlanIntent(c, t, i).value)
  {
    hide ManagedFile.Render, ManagedFile.Parse, ManagedFile.Authentic, Owned, Unmarked;
    if i.path in t.files {
      var text := t.files[i.path].content;
      AuthenticIff(c, text, i.managed.source, i.managed.style);
      UnmarkedIff(c, text, i.managed.style);
      AuthenticIsMarked(c, text, i.managed.source, i.managed.style);
      ManagedFile.RenderedIsAuthentic(c, i.managed);
    }
  }

  lemma AuthenticIsMarked(c: Codec, text: string, source: string, style: ManagedFile.Style)
    ensures ManagedFile.Authentic(c, text, source, style) ==>
              ManagedFile.Parse(c, text, style).Ok? && ManagedFile.Parse(c, text, style).value.Some?
  {}

  lemma BlockIff(c: Codec, t: Tree, i: Intent)
    requires i.SharedBlockIntent? && i.path !in t.dirs
    ensures PlanIntent(c, t, i).Ok? <==> MayWrite(c, t, i)
    ensures PlanIntent(c, t, i).Ok? ==> Puts(c, t, i, PlanIntent(c, t, i).value)
  {
    hide SharedBlock.Merge, SharedBlock.Render, NoBlock, HasOwnBlock;
    if i.path in t.files { MergesIff(c, t.files[i.path].content, i.block); }
  }

  lemma CurrentIs(c: Codec, t: Tree, i: Intent)
    ensures var current := CurrentObject(c, Lookup(t.files, i.path));
            && (current.Ok? ==> IsObject(c, t, i.path, current.value))
            && forall other :: IsObject(c, t, i.path, other) ==> current == Ok(other)
  {}

  lemma JsonIff(c: Codec, t: Tree, i: Intent)
    requires (i.SharedJsonIntent? || i.KeyedListIntent?) && i.path !in t.dirs
    ensures PlanIntent(c, t, i).Ok? <==> MayWrite(c, t, i)
    ensures PlanIntent(c, t, i).Ok? ==> Puts(c, t, i, PlanIntent(c, t, i).value)
  {
    hide JsonEntries.Merge, KeyedLists.Merge, CurrentObject, IsObject;
    CurrentIs(c, t, i);
    var existing := Lookup(t.files, i.path);
    var current := CurrentObject(c, existing);
    if PlanIntent(c, t, i).Ok? {
      var (merged, changed) := MergeInto(i, current.value).value;
      assert PutsJson(c, existing, i.mode, PlanIntent(c, t, i).value, merged, changed);
      assert IsObject(c, t, i.path, current.value);
    }
  }

  /** An intent is planned exactly when what is at its path allows it, and then with the operation that makes it so. */
  lemma IntentIff(c: Codec, t: Tree, i: Intent)
    requires c.Valid() && (i.ManagedIntent? && i.path !in t.dirs ==> ManagedFile.Render(c, i.managed).Ok?)
    ensures PlanIntent(c, t, i).Ok? <==> MayWrite(c, t, i)
    ensures PlanIntent(c, t, i).Ok? ==> Puts(c, t, i, PlanIntent(c, t, i).value)
  {
    if !i.DirectoryIntent? && i.path !in t.dirs {
      match i
      case ManagedIntent(_, _, _, _) => ManagedIff(c, t, i);
      case SharedBlockIntent(_, _, _) => BlockIff(c, t, i);
      case SharedJsonIntent(_, _, _) => JsonIff(c, t, i);
      case KeyedListIntent(_, _, _) => JsonIff(c, t, i);
      case CreateOnlyIntent(_, _, _) =>
      case ExactFileIntent(_, _, _, _) =>
      case ExactDeleteIntent(_, _, _) =>
    }
  }

  // ---- all intents ----

  /** All intents for this path are the same. */
  ghost predicate Agreed(intents: seq<Intent>, i: Intent) {
    forall k | 0 <= k < |intents| && intents[k].path == i.path :: intents[k] == i
  }

  ghost predicate HasOp(plan: Plan, path: Path) {
    exists op | op in plan.ops :: op.path == path
  }

  ghost predicate HasConflict(plan: Plan, path: Path) {
    exists k | 0 <= k < |plan.conflicts| :: plan.conflicts[k].0 == path
  }

  lemma {:induction false} FirstsMention(intents: seq<Intent>, i: Intent) returns (f: Intent)
    requires i in intents
    ensures f in Firsts(intents) && f in intents && f.path == i.path
  {
    var rest, last := intents[..|intents| - 1], intents[|intents| - 1];
    if i in rest {
      f := FirstsMention(rest, i);
    } else if Mentions(Firsts(rest), last.path) {
      var k :| 0 <= k < |Firsts(rest)| && Firsts(rest)[k].path == last.path;
      f := Firsts(rest)[k];
      Convergence.FirstsDistinct(rest);
    } else {
      f := last;
    }
  }

  /** Each path is planned for once, as its first intent is. */
  lemma {:induction false} PlannedFor(c: Codec, t: Tree, intents: seq<Intent>, firsts: seq<Intent>, path: Path)
    requires Convergence.DistinctPaths(firsts)
    ensures HasOp(PlanOver(c, t, intents, firsts), path)
       <==> exists f | f in firsts :: f.path == path && PlanPath(c, t, intents, f).Ok?
    ensures HasConflict(PlanOver(c, t, intents, firsts), path)
       <==> exists f | f in firsts :: f.path == path && PlanPath(c, t, intents, f).Err?
    ensures forall op | op in PlanOver(c, t, intents, firsts).ops ::
              exists f | f in firsts :: PlanPath(c, t, intents, f) == Ok(op)
  {
    if firsts != [] {
      var rest, last := firsts[..|firsts| - 1], firsts[|firsts| - 1];
      PlannedFor(c, t, intents, rest, path);
      var before, planned := PlanOver(c, t, intents, rest), PlanPath(c, t, intents, last);
      PathIs(c, t, intents, last);
      Adds(before, last.path, planned, path);
      assert forall f :: f in firsts <==> f in rest || f == last;
    }
  }

  lemma PathIs(c: Codec, t: Tree, intents: seq<Intent>, i: Intent)
    ensures PlanPath(c, t, intents, i) == if Agreed(intents, i) then PlanIntent(c, t, i)
                                          else Err("incompatible duplicate contributions")
    ensures PlanPath(c, t, intents, i).Ok? ==> PlanPath(c, t, intents, i).value.path == i.path
  {
    if PlanPath(c, t, intents, i).Ok? { Convergence.PlannedPath(c, t, i); }
  }

  lemma Adds(plan: Plan, at: Path, planned: Result<Op, string>, path: Path)
    requires planned.Ok? ==> planned.value.path == at
    ensures HasOp(AddTo(plan, at, planned), path) <==> HasOp(plan, path) || (planned.Ok? && at == path)
    ensures HasConflict(AddTo(plan, at, planned), path) <==> HasConflict(plan, path) || (planned.Err? && at == path)
    ensures forall op :: op in AddTo(plan, at, planned).ops <==> op in plan.ops || planned == Ok(op)
  {
    var after := AddTo(plan, at, planned);
    if HasConflict(plan, path) {
      var k :| 0 <= k < |plan.conflicts| && plan.conflicts[k].0 == path;
      assert after.conflicts[k] == plan.conflicts[k];
    }
    if planned.Err? { assert after.conflicts[|plan.conflicts|].0 == at; }
  }

  /** The only one for its path. */
  lemma OnlyFirst(firsts: seq<Intent>, f: Intent, g: Intent)
    requires Convergence.DistinctPaths(firsts) && f in firsts && g in firsts && f.path == g.path
    ensures f == g
  {}

  lemma Renders(c: Codec, t: Tree, intents: seq<Intent>, f: Intent)
    requires Reconcile(c, t, intents).Ok? && f in Firsts(intents) && Agreed(intents, f)
    ensures f.ManagedIntent? && f.path !in t.dirs ==> ManagedFile.Render(c, f.managed).Ok?
  {
    hide ManagedFile.Render, PlanOver;
    var k :| 0 <= k < |Firsts(intents)| && Firsts(intents)[k] == f;
    assert !Unrenderable(c, t, intents, Firsts(intents)[k]);
  }

  /**
   A path gets an operation exactly when all its intents agree and what is there allows it; otherwise it is a conflict,
   and nothing is planned for it.
   */
  lemma PlannedIff(c: Codec, t: Tree, intents: seq<Intent>, i: Intent)
    requires c.Valid() && Reconcile(c, t, intents).Ok? && i in intents
    ensures HasOp(Reconcile(c, t, intents).value, i.path) <==> Agreed(intents, i) && MayWrite(c, t, i)
    ensures HasConflict(Reconcile(c, t, intents).value, i.path) <==> !(Agreed(intents, i) && MayWrite(c, t, i))
  {
    hide PlanIntent, PlanPath, MayWrite, Puts, PlanOver;
    var f := FirstsMention(intents, i);
    Convergence.FirstsDistinct(intents);
    PlannedFor(c, t, intents, Firsts(intents), i.path);
    PathIs(c, t, intents, f);
    if Agreed(intents, f) {
      Renders(c, t, intents, f);
      IntentIff(c, t, f);
    }
    forall g | g in Firsts(intents) && g.path == i.path ensures g == f { OnlyFirst(Firsts(intents), g, f); }
    assert Agreed(intents, i) <==> Agreed(intents, f) by { assert f in intents && f.path == i.path; }
    assert Agreed(intents, f) ==> f == i;
  }

  /** Every operation of a plan is what one intent, agreed on and allowed, asks for. */
  lemma OperationIs(c: Codec, t: Tree, intents: seq<Intent>, op: Op) returns (i: Intent)
    requires c.Valid() && Reconcile(c, t, intents).Ok? && op in Reconcile(c, t, intents).value.ops
    ensures i in intents && Agreed(intents, i) && MayWrite(c, t, i) && Puts(c, t, i, op)
  {
    hide PlanIntent, PlanPath, MayWrite, Puts, PlanOver;
    Convergence.FirstsDistinct(intents);
    PlannedFor(c, t, intents, Firsts(intents), op.path);
    i :| i in Firsts(intents) && PlanPath(c, t, intents, i) == Ok(op);
    PathIs(c, t, intents, i);
    Renders(c, t, intents, i);
    IntentIff(c, t, i);
  }

  /**
   A file that a plan writes over or removes is the program's own or adopted, or is expected to the letter, or is merged
   into: it is never one of the user's that an intent merely finds.
   */
  lemma OverwrittenIs(c: Codec, t: Tree, intents: seq<Intent>, op: Op) returns (i: Intent)
    requires c.Valid() && Reconcile(c, t, intents).Ok? && op in Reconcile(c, t, intents).value.ops
    requires op.state == Update || op.state == Delete
    ensures i in intents && i.path == op.path && Agreed(intents, i)
    ensures op.path in t.files && op.expected == Some(t.files[op.path].content)
    ensures var text := t.files[op.path].content;
            || (i.ManagedIntent? && (Owned(c, text, i.managed.source, i.managed.style)
                                     || (Unmarked(c, text, i.managed.style) && c.digest(text) in i.adopt)))
            || (i.ExactFileIntent? && c.digest(text) == i.expected)
            || (i.ExactDeleteIntent? && c.digest(text) == i.expected && t.files[op.path].mode == i.mode)
            || (i.SharedBlockIntent? && (NoBlock(text) || HasOwnBlock(c, text, i.block.source)))
            || i.SharedJsonIntent? || i.KeyedListIntent?
  {
    hide Owned, Unmarked, NoBlock, HasOwnBlock, Reconcile;
    i := OperationIs(c, t, intents, op);
  }

  /** A path below the project root, said component by component. */
  predicate Below(path: Path) {
    path != [] && "" !in path && "." !in path && ".." !in path
  }

  /**
   Planning as a whole is refused exactly for a path that is not below the root, and for a managed source that no marker
   can be put on.
   */
  lemma PlansIff(c: Codec, t: Tree, intents: seq<Intent>)
    ensures Reconcile(c, t, intents).Ok?
       <==> (forall i | i in intents :: Below(i.path))
            && forall i | i in intents :: i.ManagedIntent? && Agreed(intents, i) && i.path !in t.dirs ==>
                Renderable(c, i.managed)
  {
    hide PlanOver, ManagedFile.Render, Renderable;
    forall i | i in intents ensures SafePath(i.path) <==> Below(i.path) {}
    if exists k | 0 <= k < |intents| :: !SafePath(intents[k].path) {
      var k :| 0 <= k < |intents| && !SafePath(intents[k].path);
      assert !Below(intents[k].path);
    } else {
      Convergence.FirstsDistinct(intents);
      if exists i | i in intents ::
          i.ManagedIntent? && Agreed(intents, i) && i.path !in t.dirs && !Renderable(c, i.managed) {
        var i :| i in intents && i.ManagedIntent? && Agreed(intents, i) && i.path !in t.dirs
            && !Renderable(c, i.managed);
        RendersIff(c, i.managed);
        var f := FirstsMention(intents, i);
        var k :| 0 <= k < |Firsts(intents)| && Firsts(intents)[k] == f;
        assert Unrenderable(c, t, intents, Firsts(intents)[k]);
      } else {
        forall k | 0 <= k < |Firsts(intents)| ensures !Unrenderable(c, t, intents, Firsts(intents)[k]) {
          var f := Firsts(intents)[k];
          assert f in Firsts(intents) && f in intents;
          if f.ManagedIntent? { RendersIff(c, f.managed); }
        }
      }
    }
  }
}

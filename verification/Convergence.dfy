/** Planning again after a successful transaction asks for nothing. */
module Convergence {
  import opened Wrappers
  import opened JsonValues
  import opened Transaction
  import opened TransactionProofs
  import opened TransactionDirectories
  import opened TransactionTheorems
  import opened TransactionOutcomes
  import opened Planner
  import ManagedFile
  import SharedBlock
  import JsonEntries
  import JsonEntriesProofs
  import KeyedLists
  import KeyedListsProofs
  import Text

  /** The file that a successful operation leaves. */
  function Left(existing: Option<File>, op: Op): Option<File> {
    if op.state == Unchanged then existing else Target(op)
  }

  predicate IsUnchanged(r: Result<Op, string>) {
    r.Ok? && r.value.state == Unchanged
  }

  // ---- one file ----

  lemma RenderedIsLeft(c: Codec, i: Intent)
    requires c.Valid() && i.ManagedIntent? && ManagedFile.Render(c, i.managed).Ok?
    ensures IsUnchanged(PlanManaged(c, i, Some(File(ManagedFile.Render(c, i.managed).value, i.mode))))
  {
    ManagedFile.RenderedIsAuthentic(c, i.managed);
  }

  /** A managed file converges in every marker style. */
  lemma ManagedConverges(c: Codec, i: Intent, existing: Option<File>)
    requires c.Valid() && i.ManagedIntent? && PlanFile(c, i, existing).Ok?
    ensures IsUnchanged(PlanFile(c, i, Left(existing, PlanFile(c, i, existing).value)))
  {
    RenderedIsLeft(c, i);
    var op := PlanManaged(c, i, existing).value;
    assert op.state == Unchanged || Target(op) == Some(File(ManagedFile.Render(c, i.managed).value, i.mode));
  }

  /** A shared block converges exactly when the user's text did not end in a bare closing marker. */
  lemma BlockConverges(c: Codec, i: Intent, existing: Option<File>)
    requires c.Valid() && i.SharedBlockIntent? && SharedBlock.Clean(c, i.block) && PlanFile(c, i, existing).Ok?
    ensures IsUnchanged(PlanFile(c, i, Left(existing, PlanFile(c, i, existing).value)))
       <==> (existing.Some? ==> !SharedBlock.EndsInBareMarker(existing.value.content))
  {
    hide SharedBlock.Merge, SharedBlock.Render, SharedBlock.EndsInBareMarker, SharedBlock.Clean;
    if existing.None? {
      EmptyIsPlain();
      EmptyMerge(c, i.block);
      SharedBlock.MergeIsIdempotent(c, "", i.block);
    } else {
      SharedBlock.MergeIsIdempotent(c, existing.value.content, i.block);
    }
  }

  lemma EmptyMerge(c: Codec, b: SharedBlock.Block)
    ensures SharedBlock.Merge(c, "", b) == Ok(SharedBlock.Render(c, b))
  {
    hide SharedBlock.Render;
    EmptyIsPlain();
    assert "" + SharedBlock.Separator("") + SharedBlock.Render(c, b) == SharedBlock.Render(c, b);
  }

  lemma EmptyIsPlain()
    ensures !SharedBlock.EndsInBareMarker("") && !Text.Occurs("", SharedBlock.BEGIN)
            && !Text.Occurs("", SharedBlock.END)
  {}

  /** Shared JSON values converge exactly when no entry contradicts one above it. */
  lemma JsonConverges(c: Codec, i: Intent, existing: Option<File>)
    requires c.Valid() && i.SharedJsonIntent? && PlanFile(c, i, existing).Ok?
    ensures IsUnchanged(PlanFile(c, i, Left(existing, PlanFile(c, i, existing).value)))
       <==> JsonEntriesProofs.Agree(JsonEntriesProofs.Wanted(i.entries))
  {
    hide JsonEntries.MergeAll, JsonEntries.Collect, JsonEntriesProofs.Agree, JsonEntriesProofs.Wanted,
      JsonEntriesProofs.AllSet;
    var current := CurrentObject(c, existing).value;
    var (merged, changed) := JsonEntries.Merge(current, i.entries).value;
    JsonEntriesProofs.MergeIsIdempotent(current, i.entries);
    assert c.parse(c.indented(merged) + "\n") == Some(merged);
    JsonEntries.CollectKeepsPaths(i.entries);
    JsonEntriesProofs.UnchangedIsSet(current, JsonEntries.Collect(i.entries).value);
    JsonEntriesProofs.UnchangedIsSet(merged, JsonEntries.Collect(i.entries).value);
  }

  lemma KeyedListConverges(c: Codec, i: Intent, existing: Option<File>)
    requires c.Valid() && i.KeyedListIntent? && PlanFile(c, i, existing).Ok?
    requires KeyedListsProofs.Separate(KeyedLists.Group(i.lists).value)
    ensures IsUnchanged(PlanFile(c, i, Left(existing, PlanFile(c, i, existing).value)))
  {
    hide KeyedLists.Merge, KeyedLists.Group, KeyedListsProofs.Separate;
    var current := CurrentObject(c, existing).value;
    var merged := KeyedLists.Merge(current, i.lists).value.0;
    KeyedListsProofs.MergeIsIdempotent(current, i.lists);
    assert c.parse(c.indented(merged) + "\n") == Some(merged);
  }

  // ---- the whole plan ----

  /** What a caller can check before planning. */
  ghost predicate Repeatable(c: Codec, t: Tree, i: Intent) {
    match i
    case DirectoryIntent(_, _) => true
    case ManagedIntent(_, _, _, _) => true
    case CreateOnlyIntent(_, _, _) => true
    case ExactFileIntent(_, _, _, _) => false
    case ExactDeleteIntent(_, _, _) => false
    case SharedBlockIntent(path, _, block) =>
      SharedBlock.Clean(c, block) && (path in t.files ==> !SharedBlock.EndsInBareMarker(t.files[path].content))
    case SharedJsonIntent(_, _, entries) => JsonEntriesProofs.Agree(JsonEntriesProofs.Wanted(entries))
    case KeyedListIntent(_, _, lists) =>
      KeyedLists.Group(lists).Ok? ==> KeyedListsProofs.Separate(KeyedLists.Group(lists).value)
  }

  lemma FileConverges(c: Codec, t: Tree, i: Intent)
    requires c.Valid() && !i.DirectoryIntent? && Repeatable(c, t, i) && PlanFile(c, i, Lookup(t.files, i.path)).Ok?
    ensures var existing := Lookup(t.files, i.path);
            IsUnchanged(PlanFile(c, i, Left(existing, PlanFile(c, i, existing).value)))
  {
    var existing := Lookup(t.files, i.path);
    match i
    case ManagedIntent(_, _, _, _) => ManagedConverges(c, i, existing);
    case CreateOnlyIntent(_, _, _) =>
    case SharedBlockIntent(_, _, _) => BlockConverges(c, i, existing);
    case SharedJsonIntent(_, _, _) => JsonConverges(c, i, existing);
    case KeyedListIntent(_, _, _) => KeyedListConverges(c, i, existing);
  }

  lemma PlannedPath(c: Codec, t: Tree, i: Intent)
    requires PlanIntent(c, t, i).Ok?
    ensures var op := PlanIntent(c, t, i).value;
            op.path == i.path && (op.kind == Directory <==> i.DirectoryIntent?)
            && (op.kind == Directory ==> op.state == Create || op.state == Unchanged)
  {}

  ghost predicate DistinctPaths(intents: seq<Intent>) {
    forall a, b | 0 <= a < b < |intents| :: intents[a].path != intents[b].path
  }

  lemma OneMorePath(rest: seq<Intent>, last: Intent)
    requires DistinctPaths(rest) && !Mentions(rest, last.path)
    ensures DistinctPaths(rest + [last])
  {
    forall a | 0 <= a < |rest| ensures rest[a].path != last.path {}
  }

  lemma {:induction false} FirstsDistinct(intents: seq<Intent>)
    ensures DistinctPaths(Firsts(intents)) && forall i | i in Firsts(intents) :: i in intents
  {
    if intents != [] {
      var rest, last := Firsts(intents[..|intents| - 1]), intents[|intents| - 1];
      FirstsDistinct(intents[..|intents| - 1]);
      if !Mentions(rest, last.path) { OneMorePath(rest, last); }
    }
  }

  /** Without conflicts, a plan holds the operation of every intent, in order. */
  lemma {:induction false} PlanHasAll(c: Codec, t: Tree, intents: seq<Intent>, firsts: seq<Intent>)
    requires PlanOver(c, t, intents, firsts).conflicts == []
    ensures var ops := PlanOver(c, t, intents, firsts).ops;
            |ops| == |firsts| && forall k | 0 <= k < |ops| :: PlanPath(c, t, intents, firsts[k]) == Ok(ops[k])
  {
    if firsts != [] { PlanHasAll(c, t, intents, firsts[..|firsts| - 1]); }
  }

  lemma OperationLeaves(t: Tree, next: nat, ops: seq<Op>, order: seq<Path>, faults: Faults, op: Op)
    requires Ready(t, next, ops, order) && op in ops && Apply(t, next, ops, order, faults).1.None?
    ensures var t' := Apply(t, next, ops, order, faults).0;
            op.kind == Regular ==> Lookup(t'.files, op.path) == Left(Lookup(t.files, op.path), op)
  {
    SuccessIsThePlan(t, next, ops, order, faults);
    FilteredDistinct(ops);
    FilteredDistinct(Mutable(ops));
    var planned := FileOps(Mutable(ops));
    PlannedAt(t.files, planned, op.path);
    if op.kind == Regular {
      if op.state == Unchanged {
        forall i | 0 <= i < |planned| ensures planned[i].path != op.path {
          assert planned[i] in planned && planned[i] in ops && planned[i] != op;
        }
      } else {
        assert op in planned;
      }
    }
  }

  lemma IntentConverges(c: Codec, t: Tree, next: nat, ops: seq<Op>, order: seq<Path>, faults: Faults, i: Intent, op: Op)
    requires c.Valid() && Repeatable(c, t, i) && PlanIntent(c, t, i) == Ok(op)
    requires Ready(t, next, ops, order) && op in ops
    requires Apply(t, next, ops, order, faults).1.None?
    ensures IsUnchanged(PlanIntent(c, Apply(t, next, ops, order, faults).0, i))
  {
    var t' := Apply(t, next, ops, order, faults).0;
    PlannedPath(c, t, i);
    SuccessWellFormed(t, next, ops, order, faults);
    SuccessMakesDirectories(t, next, ops, order, faults);
    OperationLeaves(t, next, ops, order, faults, op);
    if i.DirectoryIntent? {
      assert i.path in t'.dirs;
      assert i.path !in t'.files;
    } else {
      FileConverges(c, t, i);
      var left := Left(Lookup(t.files, i.path), op);
      assert left.Some?;
      assert i.path in t'.files && i.path !in t'.dirs;
    }
  }

  /**
   After a plan without conflicts was applied, planning the same intents on the result gives no conflict and leaves
   everything as it is.
   */
  lemma AppliedPlanConverges(c: Codec, t: Tree, next: nat, intents: seq<Intent>, order: seq<Path>, faults: Faults)
    requires c.Valid() && Reconcile(c, t, intents).Ok? && Reconcile(c, t, intents).value.conflicts == []
    requires var ops := Reconcile(c, t, intents).value.ops;
             Ready(t, next, ops, order) && Apply(t, next, ops, order, faults).1.None?
    requires forall i | i in intents :: Repeatable(c, t, i)
    ensures var t' := Apply(t, next, Reconcile(c, t, intents).value.ops, order, faults).0;
            var again := Reconcile(c, t', intents);
            again.Ok? && again.value.conflicts == [] && forall op | op in again.value.ops :: op.state == Unchanged
  {
    var ops := Reconcile(c, t, intents).value.ops;
    var t' := Apply(t, next, ops, order, faults).0;
    var firsts := Firsts(intents);
    FirstsDistinct(intents);
    PlanHasAll(c, t, intents, firsts);
    forall k | 0 <= k < |firsts| ensures IsUnchanged(PlanPath(c, t', intents, firsts[k])) {
      assert PlanPath(c, t, intents, firsts[k]) == Ok(ops[k]);
      assert ops[k] in ops && firsts[k] in firsts;
      IntentConverges(c, t, next, ops, order, faults, firsts[k], ops[k]);
    }
    AllUnchanged(c, t', intents, firsts);
  }

  lemma {:induction false} AllUnchanged(c: Codec, t: Tree, intents: seq<Intent>, firsts: seq<Intent>)
    requires forall k | 0 <= k < |firsts| :: IsUnchanged(PlanPath(c, t, intents, firsts[k]))
    ensures var plan := PlanOver(c, t, intents, firsts);
            plan.conflicts == [] && forall op | op in plan.ops :: op.state == Unchanged
  {
    if firsts != [] {
      AllUnchanged(c, t, intents, firsts[..|firsts| - 1]);
      assert IsUnchanged(PlanPath(c, t, intents, firsts[|firsts| - 1]));
    }
  }

  // ---- planning, applying, planning again ----

  /** A project that is a tree, with the stages that dead processes left in it. */
  ghost predicate Sound(t: Tree, next: nat) {
    WellFormed(t) && StagesPlaced(t) && forall s | s in t.stages :: s < next
  }

  lemma PlannedOps(c: Codec, t: Tree, intents: seq<Intent>)
    requires Reconcile(c, t, intents).Ok? && Reconcile(c, t, intents).value.conflicts == []
    ensures var ops := Reconcile(c, t, intents).value.ops;
            Distinct(ops) && forall op | op in ops :: op.path != [] && exists i :: PlanIntent(c, t, i) == Ok(op)
  {
    var ops, firsts := Reconcile(c, t, intents).value.ops, Firsts(intents);
    FirstsDistinct(intents);
    PlanHasAll(c, t, intents, firsts);
    forall k | 0 <= k < |ops|
      ensures ops[k].path == firsts[k].path && ops[k].path != [] && PlanIntent(c, t, firsts[k]) == Ok(ops[k]) {
      assert PlanPath(c, t, intents, firsts[k]) == Ok(ops[k]);
      PlannedPath(c, t, firsts[k]);
      assert firsts[k] in firsts && firsts[k] in intents;
    }
  }

  lemma PlannedHolds(c: Codec, t: Tree, i: Intent)
    requires PlanIntent(c, t, i).Ok?
    ensures StillPlanned(t, PlanIntent(c, t, i).value)
  {
    hide ManagedFile.Render, ManagedFile.Parse, ManagedFile.Authentic, SharedBlock.Merge, SharedBlock.Render, MergeInto,
      CurrentObject;
  }

  /** A plan without conflicts is one that can be applied to the tree it was made for. */
  lemma PlanIsReady(c: Codec, t: Tree, next: nat, intents: seq<Intent>, order: seq<Path>)
    requires Sound(t, next) && Reconcile(c, t, intents).Ok? && Reconcile(c, t, intents).value.conflicts == []
    requires ValidOrder(order, Mutable(Reconcile(c, t, intents).value.ops))
    ensures var ops := Reconcile(c, t, intents).value.ops; Ready(t, next, ops, order) && FirstStale(t, ops).None?
  {
    hide PlanIntent, Reconcile, StillPlanned;
    var ops := Reconcile(c, t, intents).value.ops;
    PlannedOps(c, t, intents);
    forall op | op in ops ensures StillPlanned(t, op) {
      var i :| PlanIntent(c, t, i) == Ok(op);
      PlannedHolds(c, t, i);
    }
  }

  lemma PlansOnlyCreate(c: Codec, t: Tree, intents: seq<Intent>)
    requires Reconcile(c, t, intents).Ok? && Reconcile(c, t, intents).value.conflicts == []
    ensures OnlyCreatesDirectories(Reconcile(c, t, intents).value.ops)
  {
    hide PlanIntent, Reconcile;
    var ops := Reconcile(c, t, intents).value.ops;
    PlannedOps(c, t, intents);
    MutableIn(ops);
    forall op | op in Mutable(ops) && op.kind == Directory ensures op.state == Create {
      var i :| PlanIntent(c, t, i) == Ok(op);
      PlannedPath(c, t, i);
    }
  }

  /**
   Planning, applying and planning again: the plan is carried out exactly when it wants no path both as a directory and
   as a file, and no fault is in the way; and then nothing is left to do.
   */
  lemma PlanApplyPlan(c: Codec, t: Tree, next: nat, intents: seq<Intent>, order: seq<Path>, faults: Faults)
    requires c.Valid() && Sound(t, next) && Reconcile(c, t, intents).Ok?
             && Reconcile(c, t, intents).value.conflicts == []
    requires ValidOrder(order, Mutable(Reconcile(c, t, intents).value.ops))
    ensures var ops := Reconcile(c, t, intents).value.ops;
            var (t', failed) := Apply(t, next, ops, order, faults);
            var again := Reconcile(c, t', intents);
            && (failed.None? <==> Coherent(t, ops) && Unhindered(t, ops, faults))
            && (failed.None? && (forall i | i in intents :: Repeatable(c, t, i)) ==>
                  again.Ok? && again.value.conflicts == []
                    && forall op | op in again.value.ops :: op.state == Unchanged)
  {
    hide Reconcile, Apply, Repeatable, Coherent, Unhindered;
    PlanIsReady(c, t, next, intents, order);
    PlansOnlyCreate(c, t, intents);
    SucceedsIff(t, next, Reconcile(c, t, intents).value.ops, order, faults);
    if Apply(t, next, Reconcile(c, t, intents).value.ops, order, faults).1.None?
      && forall i | i in intents :: Repeatable(c, t, i) {
      AppliedPlanConverges(c, t, next, intents, order, faults);
    }
  }

  // ---- a plan that cannot be carried out ----

  const CLASHING: seq<Intent> := [CreateOnlyIntent(["a"], 0x1A4, "text"), CreateOnlyIntent(["a", "b"], 0x1A4, "text")]
  const CLASHING_OPS :=
    [Op(["a"], Create, Regular, "text", 0x1A4, None), Op(["a", "b"], Create, Regular, "text", 0x1A4, None)]

  lemma PlansClash(c: Codec)
    ensures Reconcile(c, LEAK_TREE, CLASHING) == Ok(Plan(CLASHING_OPS, []))
  {
    var one, two := CLASHING[0], CLASHING[1];
    assert CLASHING[..1] == [one] && [one][..0] == [];
    assert Firsts([]) == [] && Firsts([one]) == [one];
    assert Firsts(CLASHING) == CLASHING;
    assert PlanOver(c, LEAK_TREE, CLASHING, []) == Plan([], []);
    assert PlanOver(c, LEAK_TREE, CLASHING, [one]) == Plan([CLASHING_OPS[0]], []);
    assert PlanOver(c, LEAK_TREE, CLASHING, CLASHING) == Plan(CLASHING_OPS, []);
  }

  lemma ClashIsMutable()
    ensures Mutable(CLASHING_OPS) == CLASHING_OPS && (forall d :: d in Needed(CLASHING_OPS) <==> d == ["a"])
    ensures ValidOrder(LEAK_ORDER, CLASHING_OPS)
  {
    var m := CLASHING_OPS;
    assert m[1..] == [m[1]] && m[1..][1..] == [];
    assert m[1].path[..1] == ["a"];
    forall d | d in Needed(m) ensures d == ["a"] {
      var i, k :| 0 <= i < |m| && 0 < k <= DirectoryDepth(m[i]) && k <= |m[i].path| && d == m[i].path[..k];
      assert i == 1 && k == 1;
    }
  }

  /**
   In an empty project, a file and another one below it are planned without a conflict.  Whatever the faults, applying
   the plan fails; the project is then as it was, so that planning again asks for the same.
   */
  lemma FileBelowFile(c: Codec, next: nat, faults: Faults)
    requires forall p :: !faults(BeforeRestore, p) && !faults(Restore, p)
    ensures Reconcile(c, LEAK_TREE, CLASHING) == Ok(Plan(CLASHING_OPS, []))
    ensures var (t', failed) := Apply(LEAK_TREE, next, CLASHING_OPS, LEAK_ORDER, faults);
            failed.Some? && t' == LEAK_TREE
  {
    hide Reconcile, Apply, Needed, Mutable, StageFault;
    var t, m := LEAK_TREE, CLASHING_OPS;
    PlansClash(c);
    ClashIsMutable();
    LeakIsReady(next);
    PlanIsReady(c, t, next, CLASHING, LEAK_ORDER);
    PlansOnlyCreate(c, t, CLASHING);
    assert ["a"] in Needed(Mutable(m)) && m[0] in Mutable(m);
    assert !Coherent(t, m);
    SucceedsIff(t, next, m, LEAK_ORDER, faults);
    FileOnDirectory(t, m, m[0], faults);
    assert FirstStageFault(t, m, m, faults) == 0;
    FailureLeavesNothing(t, next, m, LEAK_ORDER, faults);
  }
}

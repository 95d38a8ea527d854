/** A transaction carries out its whole plan, or gives every file back. */
module TransactionTheorems {
  import opened Wrappers
  import opened Transaction
  import opened TransactionProofs
  import opened TransactionDirectories

  /** A plan of distinct paths below the root, on a tree whose leftover stages are older than this transaction. */
  ghost predicate Ready(t: Tree, next: nat, ops: seq<Op>, order: seq<Path>) {
    && WellFormed(t) && StagesPlaced(t)
    && (forall s | s in t.stages :: s < next)
    && Distinct(ops) && (forall op | op in ops :: op.path != [])
    && ValidOrder(order, Mutable(ops))
  }

  function Making(t: Tree, next: nat, ops: seq<Op>, order: seq<Path>, faults: Faults): Progress {
    MakeDirectories(Start(t, next), order, Mutable(ops), faults)
  }

  function Staging(t: Tree, next: nat, ops: seq<Op>, order: seq<Path>, faults: Faults): Progress {
    StageAll(Making(t, next, ops, order, faults), Mutable(ops), faults)
  }

  lemma StaysFailed(p: Progress, order: seq<Path>, ops: seq<Op>, faults: Faults)
    requires p.failed.Some?
    ensures MakeDirectories(p, order, ops, faults) == p && StageAll(p, ops, faults) == p
            && CommitAll(p, ops, faults) == p
  {}

  lemma MakingHolds(t: Tree, next: nat, ops: seq<Op>, order: seq<Path>, faults: Faults)
    requires Ready(t, next, ops, order)
    ensures var p := Making(t, next, ops, order, faults);
            && Made(t, p) && Prepared(t, next, p) && p.staged == map[] && p.committed == []
            && (forall d | d in p.made :: d in order)
            && (p.failed.None? ==> forall d | d in order :: Present(p, Mutable(ops), d))
  {
    var start := Start(t, next);
    assert [] + order == order;
    MakingKeeps(t, start, [], order, Mutable(ops), faults);
    DirectoriesOnly(start, order, Mutable(ops), faults);
  }

  lemma StagingHolds(t: Tree, next: nat, ops: seq<Op>, order: seq<Path>, faults: Faults)
    requires Ready(t, next, ops, order)
    ensures var q := Staging(t, next, ops, order, faults);
            && Made(t, q) && Prepared(t, next, q) && Committed(t, next, q, Mutable(ops))
            && (forall d | d in q.made :: d in order)
            && (q.failed.None? ==> forall op | op in FileOps(Mutable(ops)) :: op.path in q.originals)
            && (q.failed.None? ==> forall d | d in order :: Present(q, Mutable(ops), d))
  {
    var p := Making(t, next, ops, order, faults);
    var mutable := Mutable(ops);
    MakingHolds(t, next, ops, order, faults);
    FilteredDistinct(ops);
    StagingPrepares(t, next, p, mutable, faults);
    if p.failed.Some? { StaysFailed(p, order, mutable, faults); }
    var q := StageAll(p, mutable, faults);
    assert q.tree == p.tree.(stages := q.tree.stages);
  }

  lemma PassesHold(t: Tree, next: nat, ops: seq<Op>, order: seq<Path>, faults: Faults)
    requires Ready(t, next, ops, order)
    ensures var q, p := Staging(t, next, ops, order, faults), Passes(t, next, ops, order, faults);
            && Committed(t, next, p, Mutable(ops))
            && p == q.(tree := p.tree, committed := p.committed, failed := p.failed) && p.tree.dirs == q.tree.dirs
            && (p.failed.None? ==> q.failed.None? && p.committed == FileOps(Mutable(ops)))
  {
    var q := Staging(t, next, ops, order, faults);
    var mutable := Mutable(ops);
    StagingHolds(t, next, ops, order, faults);
    FilteredDistinct(ops);
    FilteredDistinct(mutable);
    forall op | op in mutable ensures op.state != Unchanged && !Names(q.committed, op.path) {}
    CommittingKeeps(t, next, q, mutable, mutable, faults);
    if q.failed.Some? { StaysFailed(q, order, mutable, faults); } else if CommitAll(q, mutable, faults).failed.None? {
      CommitsInOrder(q, mutable, faults);
      assert q.committed + FileOps(mutable) == FileOps(mutable);
    }
  }

  // ---- where the stages are ----

  ghost predicate Placed(p: Progress) {
    && StagesPlaced(p.tree)
    && (forall path | path in p.staged :: path != [] && Parent(path) in p.tree.dirs)
  }

  lemma {:induction false} StagingPlaces(p: Progress, ops: seq<Op>, faults: Faults)
    requires Placed(p)
    ensures Placed(StageAll(p, ops, faults))
    decreases |ops|
  {
    if ops != [] && p.failed.None? { StagingPlaces(StageOne(p, ops[0], faults), ops[1..], faults); }
  }

  lemma {:induction false} CommittingPlaces(p: Progress, ops: seq<Op>, faults: Faults)
    requires Placed(p) && forall op | op in p.committed && op.state != Delete :: op.path in p.staged
    ensures var q := CommitAll(p, ops, faults);
            Placed(q) && forall op | op in q.committed && op.state != Delete :: op.path in q.staged
    decreases |ops|
  {
    if ops != [] && p.failed.None? {
      var p1 := CommitOne(p, ops[0], faults);
      assert forall op | op in p1.committed :: op in p.committed || op == ops[0];
      CommittingPlaces(p1, ops[1..], faults);
    }
  }

  lemma PassesPlace(t: Tree, next: nat, ops: seq<Op>, order: seq<Path>, faults: Faults)
    requires Ready(t, next, ops, order)
    ensures var p := Passes(t, next, ops, order, faults);
            Placed(p) && forall op | op in p.committed && op.state != Delete :: op.path in p.staged
  {
    MakingHolds(t, next, ops, order, faults);
    var p := Making(t, next, ops, order, faults);
    assert forall d | d in t.dirs :: d in p.tree.dirs;
    DirectoriesOnly(Start(t, next), order, Mutable(ops), faults);
    StagingPlaces(p, Mutable(ops), faults);
    StagingHolds(t, next, ops, order, faults);
    CommittingPlaces(Staging(t, next, ops, order, faults), Mutable(ops), faults);
  }

  // ---- success ----

  /** A transaction that reports no failure left exactly the planned files, and no stage. */
  lemma SuccessIsThePlan(t: Tree, next: nat, ops: seq<Op>, order: seq<Path>, faults: Faults)
    requires Ready(t, next, ops, order)
    requires Apply(t, next, ops, order, faults).1.None?
    ensures var t' := Apply(t, next, ops, order, faults).0;
            t'.files == Planned(t.files, FileOps(Mutable(ops))) && t'.stages == t.stages
  {
    var p := Passes(t, next, ops, order, faults);
    PassesHold(t, next, ops, order, faults);
    DropsOwnStages(t, next, p, p.tree);
  }

  lemma NeededTarget(ops: seq<Op>, op: Op)
    requires op in ops && op.kind == Directory && op.path != []
    ensures op.path in Needed(ops)
  {
    var i :| 0 <= i < |ops| && ops[i] == op;
    assert ops[i].path[..|op.path|] == op.path;
  }

  lemma {:induction false} ModeOfTarget(ops: seq<Op>, op: Op)
    requires op in ops && op.kind == Directory && Distinct(ops)
    ensures ModeOf(ops, op.path) == op.mode
  {
    var last, rest := ops[|ops| - 1], ops[..|ops| - 1];
    if op != last {
      assert op in rest;
      var i :| 0 <= i < |rest| && rest[i] == op;
      assert ops[i].path != last.path;
      ModeOfTarget(rest, op);
    }
  }

  /** What the directories are after the passes: the old ones unchanged, and the new ones needed and with their mode. */
  lemma PassesDirectories(t: Tree, next: nat, ops: seq<Op>, order: seq<Path>, faults: Faults)
    requires Ready(t, next, ops, order)
    ensures var p := Passes(t, next, ops, order, faults);
            && (forall d :: d in p.tree.dirs <==> d in t.dirs || d in p.made)
            && (forall d | d in t.dirs :: p.tree.dirs[d] == t.dirs[d])
            && (forall d | d in p.made :: d !in t.dirs && d in Needed(Mutable(ops)))
            && (p.failed.None? ==> forall d | d in Needed(Mutable(ops)) :: Occupied(t, d) || d in p.made)
            && (p.failed.None? ==> forall d | d in p.made :: p.tree.dirs[d] == ModeOf(Mutable(ops), d))
  {
    PassesHold(t, next, ops, order, faults);
    StagingHolds(t, next, ops, order, faults);
    var q, p := Staging(t, next, ops, order, faults), Passes(t, next, ops, order, faults);
    if p.failed.None? {
      forall d | d in Needed(Mutable(ops)) ensures Present(q, Mutable(ops), d) {
        assert d in order;
      }
    }
  }

  /** It also left every planned directory, with its planned mode, and all directories from before as they were. */
  lemma SuccessMakesDirectories(t: Tree, next: nat, ops: seq<Op>, order: seq<Path>, faults: Faults)
    requires Ready(t, next, ops, order)
    requires Apply(t, next, ops, order, faults).1.None?
    ensures var t' := Apply(t, next, ops, order, faults).0;
            && (forall d | d in t.dirs :: d in t'.dirs && t'.dirs[d] == t.dirs[d])
            && (forall d | d in t'.dirs && d !in t.dirs :: d in Needed(Mutable(ops)))
            && (forall op | op in ops && op.kind == Directory && op.state == Create ::
                  op.path in t'.dirs && t'.dirs[op.path] == op.mode)
  {
    PassesDirectories(t, next, ops, order, faults);
    FilteredDistinct(ops);
    forall op | op in ops && op.kind == Directory && op.state == Create
      ensures var t' := Apply(t, next, ops, order, faults).0; op.path in t'.dirs && t'.dirs[op.path] == op.mode
    {
      NeededTarget(Mutable(ops), op);
      ModeOfTarget(Mutable(ops), op);
      assert StillPlanned(t, op);
    }
  }

  // ---- failure ----

  /**
   With no fault while restoring, a failed transaction gives back every file and leaves no stage of its own; of
   the directories it made, exactly those remain that held a staged file, at any depth, when it failed.
   */
  lemma FailureRestores(t: Tree, next: nat, ops: seq<Op>, order: seq<Path>, faults: Faults)
    requires Ready(t, next, ops, order)
    requires FirstStale(t, ops).None? && Apply(t, next, ops, order, faults).1.Some?
    requires forall p :: !faults(BeforeRestore, p) && !faults(Restore, p)
    ensures var t', p := Apply(t, next, ops, order, faults).0, Passes(t, next, ops, order, faults);
            && t'.files == t.files && t'.stages == t.stages
            && (forall d :: d in t'.dirs <==> d in t.dirs || (d in p.made && Waiting(p.tree, d)))
            && (forall d | d in t.dirs :: t'.dirs[d] == t.dirs[d])
  {
    var p := Passes(t, next, ops, order, faults);
    PassesHold(t, next, ops, order, faults);
    UndoRestores(t.files, p.committed, p.tree, p.originals, faults);
    var full := p.tree.(files := t.files);
    StagingHolds(t, next, ops, order, faults);
    PassesPlace(t, next, ops, order, faults);
    assert WellFormed(full);
    RemovesAllButWaiting(t, full, p.made);
    assert forall d :: Waiting(full, d) <==> Waiting(p.tree, d);
    var t1 := RemoveDirectories(full, p.made);
    RemovalKeepsModes(full, p.made);
    DropsOwnStages(t, next, p, t1);
  }

  lemma {:induction false} RemovalKeepsModes(t: Tree, made: seq<Path>)
    ensures var t' := RemoveDirectories(t, made); forall d | d in t'.dirs :: d in t.dirs && t'.dirs[d] == t.dirs[d]
    decreases |made|
  {
    if made != [] { RemovalKeepsModes(RemoveDirectory(t, made[|made| - 1]), made[..|made| - 1]); }
  }

  /**
   Whatever fails, also while restoring: no stage is left, and no file is anything but its old or its planned self.
   */
  lemma NothingInBetween(t: Tree, next: nat, ops: seq<Op>, order: seq<Path>, faults: Faults, path: Path)
    requires Ready(t, next, ops, order)
    ensures var t' := Apply(t, next, ops, order, faults).0;
            && t'.stages == t.stages
            && (Lookup(t'.files, path) == Lookup(t.files, path)
                || exists op | op in FileOps(Mutable(ops)) && op.path == path :: Lookup(t'.files, path) == Target(op))
  {
    var p := Passes(t, next, ops, order, faults);
    PassesHold(t, next, ops, order, faults);
    PlannedAt(t.files, p.committed, path);
    UndoMixes(t.files, p.tree.files, p.committed, p.tree, p.originals, faults, path);
    var undone := UndoAll(p.tree, p.committed, p.originals, faults);
    RemovalTouchesDirectories(undone, p.made);
    var t1 := if p.failed.None? then p.tree else RemoveDirectories(undone, p.made);
    DropsOwnStages(t, next, p, t1);
    FilteredDistinct(ops);
    FilteredDistinct(Mutable(ops));
    if Lookup(p.tree.files, path) != Lookup(t.files, path) {
      var i :| 0 <= i < |p.committed| && p.committed[i].path == path;
      assert p.committed[i] in p.committed;
      assert p.committed[i] in FileOps(Mutable(ops));
    }
  }

  lemma {:induction false} RemovalTouchesDirectories(t: Tree, made: seq<Path>)
    ensures var t' := RemoveDirectories(t, made); t' == t.(dirs := t'.dirs)
    decreases |made|
  {
    if made != [] { RemovalTouchesDirectories(RemoveDirectory(t, made[|made| - 1]), made[..|made| - 1]); }
  }

  // ---- the tree stays a tree ----

  lemma SuccessWellFormed(t: Tree, next: nat, ops: seq<Op>, order: seq<Path>, faults: Faults)
    requires Ready(t, next, ops, order)
    requires FirstStale(t, ops).None? && Apply(t, next, ops, order, faults).1.None?
    ensures WellFormed(Apply(t, next, ops, order, faults).0)
  {
    var p, q := Passes(t, next, ops, order, faults), Staging(t, next, ops, order, faults);
    PassesHold(t, next, ops, order, faults);
    StagingHolds(t, next, ops, order, faults);
    PassesPlace(t, next, ops, order, faults);
    forall path | path in p.tree.files
      ensures path != [] && path !in p.tree.dirs && Parent(path) in p.tree.dirs
    {
      PlannedAt(t.files, p.committed, path);
      if path in t.files && Lookup(p.tree.files, path) == Lookup(t.files, path) {
        assert path in q.tree.files;
      } else {
        var i :| 0 <= i < |p.committed| && p.committed[i].path == path;
        assert p.committed[i] in p.committed;
      }
    }
  }

  lemma FailureWellFormed(t: Tree, next: nat, ops: seq<Op>, order: seq<Path>, faults: Faults)
    requires Ready(t, next, ops, order)
    requires FirstStale(t, ops).None? && Apply(t, next, ops, order, faults).1.Some?
    requires forall p :: !faults(BeforeRestore, p) && !faults(Restore, p)
    ensures WellFormed(Apply(t, next, ops, order, faults).0)
  {
    var t', p := Apply(t, next, ops, order, faults).0, Passes(t, next, ops, order, faults);
    PassesHold(t, next, ops, order, faults);
    StagingHolds(t, next, ops, order, faults);
    FailureRestores(t, next, ops, order, faults);
    var q := Staging(t, next, ops, order, faults);
    forall d | d in t'.dirs && d != [] ensures Parent(d) in t'.dirs {
      if d !in t.dirs {
        assert d in q.tree.dirs && Parent(d) in q.tree.dirs && Parent(d) <= d;
        WaitingAbove(p.tree, Parent(d), d);
      }
    }
    forall f | f in t'.files ensures f !in t'.dirs { assert f in q.tree.files; }
  }

  /** The tree stays well formed, whether a transaction succeeds or is rolled back. */
  lemma ApplyWellFormed(t: Tree, next: nat, ops: seq<Op>, order: seq<Path>, faults: Faults)
    requires Ready(t, next, ops, order)
    requires forall p :: !faults(BeforeRestore, p) && !faults(Restore, p)
    ensures WellFormed(Apply(t, next, ops, order, faults).0)
  {
    if FirstStale(t, ops).None? {
      if Apply(t, next, ops, order, faults).1.None? {
        SuccessWellFormed(t, next, ops, order, faults);
      } else {
        FailureWellFormed(t, next, ops, order, faults);
      }
    }
  }

  // ---- a directory left behind ----

  const LEAK_OP := Op(["a", "b"], Create, Regular, "text", 0x1A4, None)
  const LEAK_TREE := Tree(map[], map[[] := 0x1ED], map[])
  const LEAK_ORDER: seq<Path> := [["a"]]

  function FirstReplaceFails(point: Point, path: Path): bool {
    point == BeforeReplace
  }

  lemma LeakIsReady(next: nat)
    ensures Mutable([LEAK_OP]) == [LEAK_OP] && Ready(LEAK_TREE, next, [LEAK_OP], LEAK_ORDER)
    ensures FirstStale(LEAK_TREE, [LEAK_OP]).None?
  {
    assert [LEAK_OP][1..] == [];
    forall d | d in Needed([LEAK_OP]) ensures d == ["a"] {
      var i, k :| 0 <= i < 1 && 0 < k <= DirectoryDepth([LEAK_OP][i]) && k <= |[LEAK_OP][i].path|
        && d == [LEAK_OP][i].path[..k];
      assert k == 1;
    }
    assert [LEAK_OP][0].path[..1] == ["a"];
  }

  lemma LeakStages(next: nat) returns (p: Progress)
    ensures p
            == StageOne(MakeDirectory(Start(LEAK_TREE, next), ["a"], [LEAK_OP], FirstReplaceFails), LEAK_OP,
            FirstReplaceFails)
    ensures p.failed.None? && p.made == [["a"]]
    ensures next in p.tree.stages && p.tree.stages[next].target == ["a", "b"]
  {
    var made := MakeDirectory(Start(LEAK_TREE, next), ["a"], [LEAK_OP], FirstReplaceFails);
    assert Parent(["a"]) == [] && Parent(["a", "b"]) == ["a"];
    assert made.failed.None? && ["a"] in made.tree.dirs;
    p := StageOne(made, LEAK_OP, FirstReplaceFails);
  }

  lemma LeakPasses(next: nat)
    ensures var p := Passes(LEAK_TREE, next, [LEAK_OP], LEAK_ORDER, FirstReplaceFails);
            p.failed.Some? && p.made == [["a"]] && next in p.tree.stages && p.tree.stages[next].target == ["a", "b"]
  {
    LeakIsReady(next);
    assert LEAK_ORDER[1..] == [] && [LEAK_OP][1..] == [];
    var staged := LeakStages(next);
    var made := MakeDirectory(Start(LEAK_TREE, next), ["a"], [LEAK_OP], FirstReplaceFails);
    assert MakeDirectories(Start(LEAK_TREE, next), LEAK_ORDER, [LEAK_OP], FirstReplaceFails) == made;
    assert made.failed.None?;
    assert StageAll(made, [LEAK_OP], FirstReplaceFails) == staged;
    assert CommitAll(staged, [LEAK_OP], FirstReplaceFails) == CommitOne(staged, LEAK_OP, FirstReplaceFails);
  }

  /** A fault at the first replacement: the file's new directory still holds its stage, so it cannot be removed. */
  lemma DirectoryLeaks(next: nat)
    ensures var outcome := Apply(LEAK_TREE, next, [LEAK_OP], LEAK_ORDER, FirstReplaceFails);
            Ready(LEAK_TREE, next, [LEAK_OP], LEAK_ORDER) && outcome.1.Some? && ["a"] !in LEAK_TREE.dirs
              && ["a"] in outcome.0.dirs
  {
    var p := Passes(LEAK_TREE, next, [LEAK_OP], LEAK_ORDER, FirstReplaceFails);
    LeakIsReady(next);
    LeakPasses(next);
    assert ["a"] in p.made && ["a"] <= Parent(p.tree.stages[next].target);
    assert Waiting(p.tree, ["a"]);
    FailureRestores(LEAK_TREE, next, [LEAK_OP], LEAK_ORDER, FirstReplaceFails);
  }
}

/** The project directory as an object, and the transaction as a program that changes it in place. */
module ProjectTree {
  import opened Wrappers
  import opened Transaction
  import opened TransactionProofs

  // ---- the directories to make ----

  ghost function Chain(op: Op, from: nat): set<Path> {
    set k | from < k <= DirectoryDepth(op) && k <= |op.path| :: op.path[..k]
  }

  lemma NeededWithOne(ops: seq<Op>, i: nat)
    requires i < |ops|
    ensures Needed(ops[..i + 1]) == Needed(ops[..i]) + Chain(ops[i], 0)
  {
    var a, b := ops[..i + 1], ops[..i];
    assert a == b + [ops[i]];
    forall d | d in Needed(a) ensures d in Needed(b) + Chain(ops[i], 0) {
      var j, k :| 0 <= j < |a| && 0 < k <= DirectoryDepth(a[j]) && k <= |a[j].path| && d == a[j].path[..k];
      if j < i { assert b[j].path[..k] == d; }
    }
    forall d | d in Needed(b) ensures d in Needed(a) {
      var j, k :| 0 <= j < |b| && 0 < k <= DirectoryDepth(b[j]) && k <= |b[j].path| && d == b[j].path[..k];
      assert a[j].path[..k] == d;
    }
    forall d | d in Chain(ops[i], 0) ensures d in Needed(a) {
      var k :| 0 < k <= DirectoryDepth(ops[i]) && k <= |ops[i].path| && d == ops[i].path[..k];
      assert a[i].path[..k] == d;
    }
  }

  lemma TargetInChain(op: Op)
    requires op.kind == Directory && op.path != []
    ensures op.path in Chain(op, 0)
  {
    assert op.path[..|op.path|] == op.path;
  }

  lemma {:induction false} UnneededMode(ops: seq<Op>, d: Path)
    requires d !in Needed(ops) && d != []
    ensures ModeOf(ops, d) == DEFAULT_DIRECTORY_MODE
  {
    if ops != [] {
      var n := |ops| - 1;
      assert ops[..n + 1] == ops;
      NeededWithOne(ops, n);
      if ops[n].kind == Directory && ops[n].path != [] { TargetInChain(ops[n]); }
      UnneededMode(ops[..n], d);
    }
  }

  lemma ModeWithOne(ops: seq<Op>, i: nat, d: Path)
    requires i < |ops|
    ensures ModeOf(ops[..i + 1], d)
         == if ops[i].kind == Directory && ops[i].path == d then ops[i].mode else ModeOf(ops[..i], d)
  {
    assert ops[..i + 1][..i] == ops[..i];
  }

  lemma ChainStep(op: Op, n: nat)
    requires 0 < n <= |op.path| && n <= DirectoryDepth(op)
    ensures Chain(op, n - 1) == Chain(op, n) + {op.path[..n]}
  {
    assert forall d :: d in Chain(op, n - 1) ==> d in Chain(op, n) || d == op.path[..n];
  }

  /** The modes planned for the needed directories; a later operation's own mode overrides the default. */
  method RequiredModes(ops: seq<Op>) returns (modes: map<Path, int>)
    requires forall op | op in ops :: op.path != []
    ensures modes.Keys == Needed(ops)
    ensures forall d | d in modes :: modes[d] == ModeOf(ops, d)
  {
    modes := map[];
    for i := 0 to |ops|
      invariant modes.Keys == Needed(ops[..i])
      invariant forall d | d in modes :: modes[d] == ModeOf(ops[..i], d)
    {
      modes := AddChain(ops, i, modes);
      NeededWithOne(ops, i);
    }
    assert ops[..|ops|] == ops;
  }

  method AddChain(ops: seq<Op>, i: nat, before: map<Path, int>) returns (modes: map<Path, int>)
    requires i < |ops| && ops[i].path != []
    requires before.Keys == Needed(ops[..i]) && forall d | d in before :: before[d] == ModeOf(ops[..i], d)
    ensures modes.Keys == before.Keys + Chain(ops[i], 0)
    ensures forall d | d in modes :: modes[d] == ModeOf(ops[..i + 1], d)
  {
    var op := ops[i];
    modes := before;
    ghost var more := ops[..i + 1];
    forall d
      ensures d in before ==> ModeOf(more, d) == if op.kind == Directory && op.path == d then op.mode else before[d] {
      ModeWithOne(ops, i, d);
    }
    forall k | 0 < k < |op.path| && op.path[..k] !in before
      ensures ModeOf(more, op.path[..k]) == DEFAULT_DIRECTORY_MODE {
      ModeWithOne(ops, i, op.path[..k]);
      UnneededMode(ops[..i], op.path[..k]);
    }
    assert op.path[..|op.path|] == op.path;
    if op.kind == Directory {
      ModeWithOne(ops, i, op.path);
      modes := modes[op.path := op.mode];
      ChainStep(op, |op.path|);
    } else if op.state == Delete {
      assert Chain(op, 0) == {};
      return;
    }
    modes := AddParents(op, modes, more);
  }

  /** Adds the parents of a path that are not there yet, from the deepest to the shallowest. */
  method AddParents(op: Op, before: map<Path, int>, ghost more: seq<Op>) returns (modes: map<Path, int>)
    requires op.path != [] && (op.kind == Directory || op.state != Delete)
    requires op.kind == Directory ==> op.path in before
    requires forall d | d in before :: before[d] == ModeOf(more, d)
    requires forall k | 0 < k < |op.path| && op.path[..k] !in before ::
             ModeOf(more, op.path[..k]) == DEFAULT_DIRECTORY_MODE
    ensures modes.Keys == before.Keys + Chain(op, 0)
    ensures forall d | d in modes :: modes[d] == ModeOf(more, d)
  {
    modes := before;
    var parent := Parent(op.path);
    NothingAbove(op);
    while parent != []
      invariant |parent| < |op.path| && parent == op.path[..|parent|]
      invariant modes.Keys == before.Keys + Chain(op, |parent|)
      invariant forall d | d in modes :: modes[d] == ModeOf(more, d)
      decreases |parent|
    {
      if parent !in modes {
        modes := modes[parent := DEFAULT_DIRECTORY_MODE];
      }
      ChainStep(op, |parent|);
      parent := Parent(parent);
    }
  }

  lemma NothingAbove(op: Op)
    requires op.path != [] && (op.kind == Directory || op.state != Delete)
    ensures Chain(op, |op.path| - 1) <= {op.path}
  {
    assert op.path[..|op.path|] == op.path;
  }

  ghost predicate IsShallowest(rest: set<Path>, d: Path) {
    d in rest && forall e | e in rest :: |d| <= |e|
  }

  lemma {:induction false} Shallowest(rest: set<Path>) returns (d: Path)
    requires rest != {}
    ensures IsShallowest(rest, d)
    decreases |rest|
  {
    d :| d in rest;
    if rest != {d} {
      var other := Shallowest(rest - {d});
      forall e | e in rest && e != d ensures |other| <= |e| { assert e in rest - {d}; }
      d := if |d| < |other| then d else other;
    }
  }

  lemma AppendsShallowest(order: seq<Path>, rest: set<Path>, d: Path)
    requires ByDepth(order) && IsShallowest(rest, d)
    requires forall a, b | a in order && b in rest :: a != b && |a| <= |b|
    ensures ByDepth(order + [d])
    ensures forall a, b | a in order + [d] && b in rest - {d} :: a != b && |a| <= |b|
  {
    forall i | 0 <= i < |order| ensures order[i] != d && |order[i]| <= |d| { assert order[i] in order; }
  }

  /** The needed directories, each once, parents before children, with their modes. */
  method RequiredDirectories(ops: seq<Op>) returns (order: seq<Path>, modes: map<Path, int>)
    requires forall op | op in ops :: op.path != []
    ensures ValidOrder(order, ops)
    ensures modes.Keys == Needed(ops) && forall d | d in modes :: modes[d] == ModeOf(ops, d)
  {
    modes := RequiredModes(ops);
    order := [];
    var rest := modes.Keys;
    while rest != {}
      invariant ByDepth(order)
      invariant forall d :: d in modes.Keys <==> d in order || d in rest
      invariant forall a, b | a in order && b in rest :: a != b && |a| <= |b|
      decreases |rest|
    {
      ghost var least := Shallowest(rest);
      assert IsShallowest(rest, least);
      var d :| d in rest && forall e | e in rest :: |d| <= |e|;
      assert IsShallowest(rest, d);
      AppendsShallowest(order, rest, d);
      order, rest := order + [d], rest - {d};
    }
  }

  // ---- the transaction ----

  class Project {
    var files: map<Path, File>
    var dirs: map<Path, int>
    var stages: map<nat, Stage>
    var next: nat

    function Contents(): Tree
      reads this
    {
      Tree(files, dirs, stages)
    }

    constructor ()
      ensures Contents() == Tree(map[], map[[] := DEFAULT_DIRECTORY_MODE], map[]) && next == 0
    {
      files, dirs, stages, next := map[], map[[] := DEFAULT_DIRECTORY_MODE], map[], 0;
    }

    /** Applies a plan; the tree left and the failure reported are those of the transaction's specification. */
    method ApplyPlan(ops: seq<Op>, faults: Faults) returns (failed: Option<Path>, order: seq<Path>)
      requires forall op | op in ops :: op.path != []
      modifies this
      ensures ValidOrder(order, Mutable(ops))
      ensures (Contents(), failed) == Apply(old(Contents()), old(next), ops, order, faults)
    {
      var mutable := Mutable(ops);
      OnlyFrom(ops);
      var modes;
      order, modes := RequiredDirectories(mutable);
      failed := FirstStale(Contents(), ops);
      if failed.None? {
        failed := ApplyGroup(mutable, order, modes, faults);
      }
    }

    method ApplyGroup(ops: seq<Op>, order: seq<Path>, modes: map<Path, int>, faults: Faults)
      returns (failed: Option<Path>)
      requires forall d | d in order :: d in modes && modes[d] == ModeOf(ops, d)
      modifies this
      ensures var p :=
              CommitAll(StageAll(MakeDirectories(Start(old(Contents()), old(next)), order, ops, faults), ops, faults),
              ops, faults);
              Contents() == Closed(p, faults) && failed == p.failed
    {
      ghost var start := Start(Contents(), next);
      failed := None;
      var made: seq<Path> := [];
      var i := 0;
      while i < |order| && failed.None?
        invariant i <= |order|
        invariant MakeDirectories(Progress(Contents(), made, map[], map[], [], next, failed), order[i..], ops, faults)
               == MakeDirectories(start, order, ops, faults)
      {
        var d := order[i];
        assert order[i..][1..] == order[i + 1..];
        if !Occupied(Contents(), d) {
          if faults(BeforeMkdir, d) || faults(Mkdir, d) || d == [] || Parent(d) !in dirs {
            failed := Some(if ops == [] then d else ops[0].path);
          } else {
            dirs := dirs[d := modes[d]];
            made := made + [d];
          }
        }
        i := i + 1;
      }
      ghost var p1 := MakeDirectories(start, order, ops, faults);
      assert p1 == Progress(Contents(), made, map[], map[], [], next, failed);

      var staged, originals := map[], map[];
      failed, staged, originals := StageFiles(ops, failed, p1, faults);
      ghost var p2 := StageAll(p1, ops, faults);

      var committed;
      failed, committed := ReplaceFiles(ops, failed, staged, p2, faults);
      ghost var p3 := CommitAll(p2, ops, faults);
      if failed.Some? {
        Rollback(committed, originals, made, faults);
      }
      stages := map s | s in stages && s !in staged.Values :: stages[s];
    }

    /** Stages every new content beside its target and remembers what was there. */
    method StageFiles(ops: seq<Op>, failedBefore: Option<Path>, ghost p: Progress, faults: Faults)
      returns (failed: Option<Path>, staged: map<Path, nat>, originals: map<Path, Option<File>>)
      requires p.tree == Contents() && p.next == next && p.failed == failedBefore && p.staged == map[]
               && p.originals == map[]
      modifies this
      ensures var q := StageAll(p, ops, faults);
              && q.tree == Contents() && q.next == next && q.failed == failed && q.staged == staged
                 && q.originals == originals
              && q.committed == p.committed && q.made == p.made
    {
      failed, staged, originals := failedBefore, map[], map[];
      ghost var now := p;
      var i := 0;
      while i < |ops| && failed.None?
        invariant i <= |ops|
        invariant now
                  == p.(tree := Contents(), next := next, failed := failed, staged := staged, originals := originals)
        invariant StageAll(now, ops[i..], faults) == StageAll(p, ops, faults)
      {
        var op := ops[i];
        assert ops[i..][1..] == ops[i + 1..];
        now := StageOne(now, op, faults);
        if op.kind == Regular {
          if !PreimageHolds(Contents(), op) || faults(BeforeStage, op.path) {
            failed := Some(op.path);
          } else {
            originals :=
              originals[op.path := if op.state == Create || op.path !in files then None else Some(files[op.path])];
            if op.state != Delete {
              if faults(WriteStage, op.path) || op.path == [] || Parent(op.path) !in dirs {
                failed := Some(op.path);
              } else {
                stages := stages[next := Stage(op.path, File(op.content, op.mode))];
                staged := staged[op.path := next];
                next := next + 1;
              }
            }
          }
        }
        i := i + 1;
      }
    }

    /** Replaces or deletes the targets one by one, until the first failure. */
    method ReplaceFiles(ops: seq<Op>, failedBefore: Option<Path>, staged: map<Path, nat>, ghost p: Progress,
                        faults: Faults)
      returns (failed: Option<Path>, committed: seq<Op>)
      requires p.tree == Contents() && p.next == next && p.failed == failedBefore && p.staged == staged
               && p.committed == []
      modifies this
      ensures var q := CommitAll(p, ops, faults);
              && q.tree == Contents() && q.next == next && q.failed == failed && q.committed == committed
              && q.staged == p.staged && q.originals == p.originals && q.made == p.made
    {
      failed, committed := failedBefore, [];
      ghost var now := p;
      var i := 0;
      while i < |ops| && failed.None?
        invariant i <= |ops|
        invariant now == p.(tree := Contents(), next := next, failed := failed, committed := committed)
        invariant CommitAll(now, ops[i..], faults) == CommitAll(p, ops, faults)
      {
        var op := ops[i];
        assert ops[i..][1..] == ops[i + 1..];
        now := CommitOne(now, op, faults);
        if op.kind == Regular {
          if !PreimageHolds(Contents(), op) || faults(BeforeReplace, op.path) || faults(Replace, op.path)
             || (op.state != Delete && op.path !in staged) {
            failed := Some(op.path);
          } else if op.state == Delete {
            files := files - {op.path};
            committed := committed + [op];
          } else {
            stages := stages - {staged[op.path]};
            files := files[op.path := File(op.content, op.mode)];
            committed := committed + [op];
          }
        }
        i := i + 1;
      }
    }

    /** Undoes the commits from the last to the first, then removes the directories that are empty again. */
    method Rollback(committed: seq<Op>, originals: map<Path, Option<File>>, made: seq<Path>, faults: Faults)
      modifies this`files, this`dirs
      ensures Contents() == RemoveDirectories(UndoAll(old(Contents()), committed, originals, faults), made)
    {
      ghost var t := Contents();
      var i := |committed|;
      assert committed[..i] == committed;
      while i > 0
        invariant i <= |committed|
        invariant Contents() == t.(files := files)
        invariant UndoAll(Contents(), committed[..i], originals, faults) == UndoAll(t, committed, originals, faults)
      {
        i := i - 1;
        var op := committed[i];
        assert committed[..i + 1][..i] == committed[..i];
        if !faults(BeforeRestore, op.path) && !faults(Restore, op.path) && PostimageHolds(Contents(), op)
          && op.path in originals {
          match originals[op.path] {
            case None => files := files - {op.path};
            case Some(file) => files := files[op.path := file];
          }
        }
      }
      ghost var undone := Contents();
      var k := |made|;
      assert made[..k] == made;
      while k > 0
        invariant k <= |made|
        invariant RemoveDirectories(Contents(), made[..k]) == RemoveDirectories(undone, made)
      {
        k := k - 1;
        assert made[..k + 1][..k] == made[..k];
        if made[k] in dirs && Empty(Contents(), made[k]) {
          dirs := dirs - {made[k]};
        }
      }
    }
  }

  lemma {:induction false} OnlyFrom(ops: seq<Op>)
    ensures forall op | op in Mutable(ops) :: op in ops
  {
    if ops != [] { OnlyFrom(ops[1..]); }
  }
}

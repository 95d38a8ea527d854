/**
 What a stale plan is, said with the tree and the plan alone: an operation does not find what it was planned from.
 */
module TransactionStaleness {
  import opened Wrappers
  import opened Transaction
  import opened TransactionTheorems
  import opened TransactionOutcomes

  /**
   A new directory or file finds its path taken; a directory that was to stay is gone; a file to update, delete or leave
   alone is not there or holds something else; a file to delete has another mode.
   */
  predicate Stale(t: Tree, op: Op) {
    var taken := op.path in t.files || op.path in t.dirs;
    var other := op.path !in t.files || op.expected != Some(t.files[op.path].content);
    match op.kind
    case Directory => (op.state == Create && taken) || (op.state == Unchanged && op.path !in t.dirs)
    case Regular =>
      match op.state
      case Create => taken
      case Update => other
      case Delete => other || t.files[op.path].mode != op.mode
      case Unchanged => op.expected.Some? && other
  }

  lemma {:induction false} FirstStaleIs(t: Tree, ops: seq<Op>, k: nat)
    requires k < |ops| && Stale(t, ops[k]) && forall j | 0 <= j < k :: !Stale(t, ops[j])
    ensures FirstStale(t, ops) == Some(ops[k].path)
  {
    if k > 0 {
      assert !Stale(t, ops[0]);
      assert ops[1..][k - 1] == ops[k];
      FirstStaleIs(t, ops[1..], k - 1);
    }
  }

  /** A plan with a stale operation is refused before anything is changed, and the first such operation is reported. */
  lemma StaleIsRefused(t: Tree, next: nat, ops: seq<Op>, order: seq<Path>, faults: Faults, k: nat)
    requires k < |ops| && Stale(t, ops[k]) && forall j | 0 <= j < k :: !Stale(t, ops[j])
    ensures Apply(t, next, ops, order, faults) == (t, Some(ops[k].path))
  {
    FirstStaleIs(t, ops, k);
  }

  lemma FreshIsPlanned(t: Tree, ops: seq<Op>)
    requires forall op | op in ops :: !Stale(t, op)
    ensures forall op | op in ops :: StillPlanned(t, op)
  {
    forall op | op in ops ensures StillPlanned(t, op) { assert !Stale(t, op); }
  }

  /** The first stale operation. */
  lemma {:induction false} FirstOf(t: Tree, ops: seq<Op>) returns (k: nat)
    requires exists op | op in ops :: Stale(t, op)
    ensures k < |ops| && Stale(t, ops[k]) && forall j | 0 <= j < k :: !Stale(t, ops[j])
  {
    k := 0;
    while k < |ops| && !Stale(t, ops[k])
      invariant k <= |ops| && forall j | 0 <= j < k :: !Stale(t, ops[j])
    {
      k := k + 1;
    }
  }

  /**
   A plan is carried out exactly when none of its operations is stale, no path is wanted both as a directory and as a
   file, and no fault is in the way.
   */
  lemma AppliesIff(t: Tree, next: nat, ops: seq<Op>, order: seq<Path>, faults: Faults)
    requires Ready(t, next, ops, order) && OnlyCreatesDirectories(ops)
    ensures Apply(t, next, ops, order, faults).1.None?
            <==> (forall op | op in ops :: !Stale(t, op)) && Coherent(t, ops) && Unhindered(t, ops, faults)
  {
    hide Apply, Stale, Coherent, Unhindered, StillPlanned, Ready;
    if forall op | op in ops :: !Stale(t, op) {
      FreshIsPlanned(t, ops);
      FreshIsApplicable(t, next, ops, order);
      SucceedsIff(t, next, ops, order, faults);
    } else {
      var k := FirstOf(t, ops);
      StaleIsRefused(t, next, ops, order, faults, k);
    }
  }

  lemma FreshIsApplicable(t: Tree, next: nat, ops: seq<Op>, order: seq<Path>)
    requires Ready(t, next, ops, order) && forall op | op in ops :: StillPlanned(t, op)
    ensures Applicable(t, next, ops, order)
  {}

  /**
   An operation on a file that has become stale meanwhile is not staged and not carried out: it fails, and the tree
   stays.
   */
  lemma StaleMeanwhile(p: Progress, op: Op, faults: Faults)
    requires op.kind == Regular && op.state != Unchanged && Stale(p.tree, op) && p.failed.None?
    ensures StageOne(p, op, faults).failed == Some(op.path) && StageOne(p, op, faults).tree == p.tree
    ensures CommitOne(p, op, faults).failed == Some(op.path) && CommitOne(p, op, faults).tree == p.tree
    ensures StageOne(p, op, faults).committed == CommitOne(p, op, faults).committed == p.committed
  {}

  /** The target is as the operation left it. */
  predicate LeftBy(t: Tree, op: Op) {
    if op.state == Delete then op.path !in t.files && op.path !in t.dirs
    else op.path in t.files && t.files[op.path].content == op.content && t.files[op.path].mode == op.mode
  }

  /** A rollback leaves alone what somebody else has put in the place of a file that it had changed. */
  lemma {:induction false} RollbackSparesForeign(t: Tree, committed: seq<Op>, originals: map<Path, Option<File>>,
                                                 faults: Faults, path: Path)
    requires forall op | op in committed && op.path == path :: !LeftBy(t, op)
    ensures var t' := UndoAll(t, committed, originals, faults);
            t'.dirs == t.dirs && (path in t'.files <==> path in t.files)
            && (path in t.files ==> t'.files[path] == t.files[path])
    decreases |committed|
  {
    if committed != [] {
      var front, last := committed[..|committed| - 1], committed[|committed| - 1];
      var u := UndoOne(t, last, originals, faults);
      UndoOneSpares(t, last, originals, faults, path);
      forall op | op in front && op.path == path ensures !LeftBy(u, op) {
        assert op in committed;
      }
      RollbackSparesForeign(u, front, originals, faults, path);
    }
  }

  lemma UndoOneSpares(t: Tree, op: Op, originals: map<Path, Option<File>>, faults: Faults, path: Path)
    requires op.path == path ==> !LeftBy(t, op)
    ensures var u := UndoOne(t, op, originals, faults);
            u.dirs == t.dirs && (path in u.files <==> path in t.files)
                && (path in t.files ==> u.files[path] == t.files[path])
  {}

  predicate AsksFor(op: Op, d: Path) {
    op.kind == Directory && op.path == d
  }

  /** A directory that is made has the mode that the plan asks for last, and rwxr-xr-x if it asks for none. */
  lemma {:induction false} ModeIs(ops: seq<Op>, d: Path, k: nat)
    ensures (forall op | op in ops :: !AsksFor(op, d)) ==> ModeOf(ops, d) == 0x1ED
    ensures k < |ops| && AsksFor(ops[k], d) && (forall j | k < j < |ops| :: !AsksFor(ops[j], d)) ==>
              ModeOf(ops, d) == ops[k].mode
  {
    if ops != [] {
      var n := |ops| - 1;
      ModeIs(ops[..n], d, k);
      assert ops[n] in ops;
    }
  }
}

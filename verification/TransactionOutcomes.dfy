/**
 What becomes of a transaction, said with the plan, the tree it starts from and the faults: when it succeeds, and which
 directories a failure leaves behind.
 */
module TransactionOutcomes {
  import opened Wrappers
  import opened Transaction
  import opened TransactionProofs
  import opened TransactionDirectories
  import opened TransactionTheorems

  /** No path is wanted both as a directory and as a file. */
  ghost predicate Coherent(t: Tree, ops: seq<Op>) {
    forall d | d in Needed(Mutable(ops)) :: d !in t.files
      && forall op | op in Mutable(ops) && op.kind == Regular :: op.path != d
  }

  /** A directory that is not there cannot be made: a fault is in the way, or it would have to be made in a file. */
  ghost predicate Blocked(t: Tree, d: Path, faults: Faults) {
    !Occupied(t, d) && (faults(BeforeMkdir, d) || faults(Mkdir, d) || (d != [] && Parent(d) in t.files))
  }

  ghost predicate MakingFault(t: Tree, ops: seq<Op>, faults: Faults) {
    exists d | d in Needed(Mutable(ops)) :: Blocked(t, d, faults)
  }

  /** An operation that puts a file in place, by way of a staged one. */
  predicate Writes(op: Op) {
    op.kind == Regular && op.state != Delete
  }

  /** The place of a new file is needed as a directory, or a file is to be put in a file. */
  ghost predicate Clashes(t: Tree, m: seq<Op>, op: Op) {
    (op.kind == Regular && op.state == Create && op.path in Needed(m))
      || (Writes(op) && op.path != [] && Parent(op.path) in t.files)
  }

  ghost predicate StageFault(t: Tree, m: seq<Op>, op: Op, faults: Faults) {
    op.kind == Regular
    && (Clashes(t, m, op) || faults(BeforeStage, op.path) || (op.state != Delete && faults(WriteStage, op.path)))
  }

  predicate ReplaceFault(op: Op, faults: Faults) {
    op.kind == Regular && (faults(BeforeReplace, op.path) || faults(Replace, op.path))
  }

  // ---- making directories ----

  lemma ParentNeeded(ops: seq<Op>, d: Path)
    requires d in Needed(ops) && Parent(d) != []
    ensures Parent(d) in Needed(ops)
  {
    var i, k :| 0 <= i < |ops| && 0 < k <= DirectoryDepth(ops[i]) && k <= |ops[i].path| && ops[i].path[..k] == d;
    assert ops[i].path[..k - 1] == Parent(d);
  }

  lemma EarlierInOrder(done: seq<Path>, order: seq<Path>, d: Path)
    requires order != [] && ByDepth(done + order) && d in done + order && |d| < |order[0]|
    ensures d in done
  {
    var all := done + order;
    var j :| 0 <= j < |all| && all[j] == d;
    assert all[|done|] == order[0];
  }

  lemma ParentIsThere(t: Tree, p: Progress, done: seq<Path>, order: seq<Path>, ops: seq<Op>)
    requires WellFormed(t) && Made(t, p) && order != [] && ValidOrder(done + order, ops)
    requires forall d | d in done :: Present(p, ops, d)
    ensures order[0] != [] && (Parent(order[0]) in p.tree.dirs || Parent(order[0]) in t.files)
  {
    var d := order[0];
    assert (done + order)[|done|] == d;
    assert d in done + order;
    if Parent(d) != [] {
      ParentNeeded(ops, d);
      EarlierInOrder(done, order, Parent(d));
      assert Present(p, ops, Parent(d));
    }
  }

  lemma MakeDirectoryFails(t: Tree, p: Progress, d: Path, ops: seq<Op>, faults: Faults)
    requires Made(t, p) && p.failed.None? && d !in p.made && d != []
             && (Parent(d) in p.tree.dirs || Parent(d) in t.files)
    ensures MakeDirectory(p, d, ops, faults).failed.Some? <==> Blocked(t, d, faults)
  {}

  /** Making directories fails exactly when one of them is blocked. */
  lemma {:induction false} MakingFailsIff(t: Tree, p: Progress, done: seq<Path>, order: seq<Path>, ops: seq<Op>,
                                          faults: Faults)
    requires WellFormed(t) && Made(t, p) && ValidOrder(done + order, ops) && p.failed.None?
    requires (forall m | m in p.made :: m in done) && (forall d | d in done :: Present(p, ops, d))
    ensures MakeDirectories(p, order, ops, faults).failed.Some? <==> exists d | d in order :: Blocked(t, d, faults)
    decreases |order|
  {
    if order != [] {
      var d := order[0];
      var q := MakeDirectory(p, d, ops, faults);
      ParentIsThere(t, p, done, order, ops);
      NotYetDone(done, order);
      assert (done + order)[|done|] == d;
      MakeDirectoryFails(t, p, d, ops, faults);
      forall m | m in p.made ensures m != d && |m| <= |d| {
        var i :| 0 <= i < |done| && done[i] == m;
        assert (done + order)[i] == m;
      }
      MakeOneKeeps(t, p, d, ops, faults);
      if q.failed.Some? {
        StaysFailed(q, order[1..], ops, faults);
      } else {
        assert (done + [d]) + order[1..] == done + order;
        forall x | x in done + [d] ensures Present(q, ops, x) {
          if x in done { assert Present(p, ops, x); }
        }
        MakingFailsIff(t, q, done + [d], order[1..], ops, faults);
        assert forall x :: x in order <==> x == d || x in order[1..];
      }
    }
  }

  lemma NotYetDone(done: seq<Path>, order: seq<Path>)
    requires order != [] && ByDepth(done + order)
    ensures order[0] !in done
  {
    forall i | 0 <= i < |done| ensures done[i] != order[0] {
      assert (done + order)[i] == done[i] && (done + order)[|done|] == order[0];
    }
  }

  lemma MakingFails(t: Tree, next: nat, ops: seq<Op>, order: seq<Path>, faults: Faults)
    requires Ready(t, next, ops, order)
    ensures Making(t, next, ops, order, faults).failed.Some? <==> MakingFault(t, ops, faults)
  {
    assert [] + order == order;
    MakingFailsIff(t, Start(t, next), [], order, Mutable(ops), faults);
    if MakingFault(t, ops, faults) {
      var d :| d in Needed(Mutable(ops)) && Blocked(t, d, faults);
      assert d in order;
    }
  }

  // ---- staging ----

  ghost predicate Wrote(ops: seq<Op>, path: Path) {
    exists j | 0 <= j < |ops| :: Writes(ops[j]) && ops[j].path == path
  }

  lemma WroteMore(ops: seq<Op>, op: Op, path: Path)
    ensures Wrote(ops + [op], path) <==> Wrote(ops, path) || (Writes(op) && op.path == path)
  {
    var all := ops + [op];
    if Wrote(ops, path) { var j :| 0 <= j < |ops| && Writes(ops[j]) && ops[j].path == path; assert all[j] == ops[j]; }
    if Writes(op) && op.path == path { assert all[|ops|] == op; }
    if Wrote(all, path) {
      var j :| 0 <= j < |all| && Writes(all[j]) && all[j].path == path;
      if j < |ops| { assert ops[j] == all[j]; }
    }
  }

  /** What staging has done after these operations: one stage for each file to write, beside its target. */
  ghost predicate StagedFor(t: Tree, p: Progress, done: seq<Op>) {
    && p.tree.files == t.files
    && (forall path :: path in p.staged <==> Wrote(done, path))
    && (forall path | path in p.staged :: p.staged[path] < p.next && p.staged[path] in p.tree.stages
          && p.tree.stages[p.staged[path]].target == path)
    && (forall a, b | a in p.staged && b in p.staged && p.staged[a] == p.staged[b] :: a == b)
    && (forall s | s in p.tree.stages :: s < p.next && (s in t.stages || s in p.staged.Values))
  }

  /** The tree with its directories in place: an operation finds what it was planned for, unless it clashes. */
  ghost predicate Fits(t: Tree, m: seq<Op>, dirs: map<Path, int>, op: Op) {
    op.kind == Regular ==>
      && PreimageHolds(t, op) && op.path != []
      && (op.path in dirs <==> op.state == Create && op.path in Needed(m))
      && (op.state != Delete ==> (Parent(op.path) in dirs <==> Parent(op.path) !in t.files))
  }

  lemma StageFails(t: Tree, m: seq<Op>, p: Progress, op: Op, faults: Faults)
    requires p.failed.None? && p.tree.files == t.files && Fits(t, m, p.tree.dirs, op)
    ensures StageOne(p, op, faults).failed.Some? <==> StageFault(t, m, op, faults)
  {}

  lemma StagePut(t: Tree, p: Progress, done: seq<Op>, op: Op, q: Progress)
    requires StagedFor(t, p, done) && Writes(op) && !Wrote(done, op.path)
    requires q.tree == p.tree.(stages := p.tree.stages[p.next := Stage(op.path, File(op.content, op.mode))])
    requires q.staged == p.staged[op.path := p.next] && q.next == p.next + 1
    ensures StagedFor(t, q, done + [op])
  {
    forall path ensures path in q.staged <==> Wrote(done + [op], path) { WroteMore(done, op, path); }
    forall s | s in q.tree.stages ensures s in t.stages || s in q.staged.Values {
      if s == p.next {
        assert q.staged[op.path] == s;
      } else if s !in t.stages {
        var path :| path in p.staged && p.staged[path] == s;
        assert q.staged[path] == s;
      }
    }
  }

  lemma SameStages(t: Tree, p: Progress, q: Progress, done: seq<Op>)
    requires StagedFor(t, p, done) && q.staged == p.staged && q.tree == p.tree && q.next == p.next
    ensures StagedFor(t, q, done)
  {}

  lemma NothingWritten(t: Tree, p: Progress, done: seq<Op>, op: Op)
    requires StagedFor(t, p, done) && !Writes(op)
    ensures StagedFor(t, p, done + [op])
  {
    forall path ensures Wrote(done + [op], path) <==> Wrote(done, path) { WroteMore(done, op, path); }
  }

  lemma StageAdds(t: Tree, m: seq<Op>, p: Progress, done: seq<Op>, op: Op, faults: Faults)
    requires StagedFor(t, p, done) && p.failed.None? && Fits(t, m, p.tree.dirs, op)
    requires forall d | d in done :: d.path != op.path
    ensures var q := StageOne(p, op, faults);
            && q.tree.dirs == p.tree.dirs && q.tree.files == t.files
               && (q.failed.Some? <==> StageFault(t, m, op, faults))
            && StagedFor(t, q, if StageFault(t, m, op, faults) then done else done + [op])
  {
    var q := StageOne(p, op, faults);
    StageFails(t, m, p, op, faults);
    if StageFault(t, m, op, faults) {
      SameStages(t, p, q, done);
    } else if Writes(op) {
      StagePut(t, p, done, op, q);
    } else {
      NothingWritten(t, p, done, op);
      SameStages(t, p, q, done + [op]);
    }
  }

  /** Staging goes on to the first operation with a fault. */
  lemma {:induction false} StagingGoes(t: Tree, m: seq<Op>, p: Progress, done: seq<Op>, ops: seq<Op>, faults: Faults)
    returns (k: nat)
    requires StagedFor(t, p, done) && p.failed.None? && Distinct(done + ops)
    requires forall op | op in ops :: Fits(t, m, p.tree.dirs, op)
    ensures k <= |ops| && forall j | 0 <= j < k :: !StageFault(t, m, ops[j], faults)
    ensures var q := StageAll(p, ops, faults);
            && q.tree.dirs == p.tree.dirs && StagedFor(t, q, done + ops[..k])
            && if k < |ops| then q.failed.Some? && StageFault(t, m, ops[k], faults) else q.failed.None?
    decreases |ops|
  {
    hide StagedFor, StageOne, StageFault, Fits;
    if ops == [] {
      k := 0;
      assert done + ops[..0] == done;
    } else {
      var q := StageOne(p, ops[0], faults);
      NotAmong(done, ops);
      StageAdds(t, m, p, done, ops[0], faults);
      if StageFault(t, m, ops[0], faults) {
        k := 0;
        StaysFailed(q, [], ops[1..], faults);
        assert done + ops[..0] == done;
      } else {
        assert (done + [ops[0]]) + ops[1..] == done + ops;
        k := StagingGoes(t, m, q, done + [ops[0]], ops[1..], faults);
        assert (done + [ops[0]]) + ops[1..][..k] == done + ops[..k + 1];
        k := k + 1;
      }
    }
  }

  lemma NotAmong(done: seq<Op>, ops: seq<Op>)
    requires ops != [] && Distinct(done + ops)
    ensures forall d | d in done :: d.path != ops[0].path
  {
    forall d | d in done ensures d.path != ops[0].path {
      var i :| 0 <= i < |done| && done[i] == d;
      assert (done + ops)[i] == d && (done + ops)[|done|] == ops[0];
    }
  }

  // ---- replacing ----

  /** A stage is used up when its file was put in place. */
  ghost predicate Used(q: Progress, done: seq<Op>, s: nat) {
    exists path | path in q.staged :: Wrote(done, path) && q.staged[path] == s
  }

  /** What replacing has done after these operations, from the state `q` that staging left. */
  ghost predicate ReplacedFor(t: Tree, q: Progress, p: Progress, done: seq<Op>) {
    && p.staged == q.staged && p.tree.dirs == q.tree.dirs
    && (forall x | !Names(done, x) :: Lookup(p.tree.files, x) == Lookup(t.files, x))
    && (forall s :: s in p.tree.stages <==> s in q.tree.stages && !Used(q, done, s))
    && (forall s | s in p.tree.stages :: p.tree.stages[s] == q.tree.stages[s])
  }

  lemma CommitFails(t: Tree, m: seq<Op>, q: Progress, p: Progress, done: seq<Op>, op: Op, faults: Faults)
    requires ReplacedFor(t, q, p, done) && p.failed.None? && Fits(t, m, q.tree.dirs, op) && !Clashes(t, m, op)
             && !Names(done, op.path)
    requires Writes(op) ==> op.path in q.staged
    ensures CommitOne(p, op, faults).failed.Some? <==> ReplaceFault(op, faults)
  {
    assert Lookup(p.tree.files, op.path) == Lookup(t.files, op.path);
  }

  lemma FilesElsewhere(files: map<Path, File>, op: Op, x: Path)
    requires x != op.path
    ensures Lookup(WithFile(files, op), x) == Lookup(files, x)
  {}

  lemma UsedMore(q: Progress, done: seq<Op>, op: Op, s: nat)
    ensures Used(q, done + [op], s) <==>
            Used(q, done, s) || (Writes(op) && op.path in q.staged && q.staged[op.path] == s)
  {
    forall path ensures Wrote(done + [op], path) <==> Wrote(done, path) || (Writes(op) && op.path == path) {
      WroteMore(done, op, path);
    }
  }

  lemma CommitPut(t: Tree, q: Progress, p: Progress, done: seq<Op>, op: Op, p': Progress)
    requires ReplacedFor(t, q, p, done) && p'.staged == p.staged && p'.tree.dirs == p.tree.dirs
    requires op.kind == Regular && p'.tree.files == WithFile(p.tree.files, op)
    requires Writes(op) ==> op.path in p.staged && p'.tree.stages == p.tree.stages - {p.staged[op.path]}
    requires !Writes(op) ==> p'.tree.stages == p.tree.stages
    ensures ReplacedFor(t, q, p', done + [op])
  {
    forall x | !Names(done + [op], x) ensures Lookup(p'.tree.files, x) == Lookup(t.files, x) {
      NamesAppended(done, op, x);
      FilesElsewhere(p.tree.files, op, x);
    }
    forall s ensures s in p'.tree.stages <==> s in q.tree.stages && !Used(q, done + [op], s) {
      UsedMore(q, done, op, s);
    }
  }

  lemma NothingReplaced(t: Tree, q: Progress, p: Progress, done: seq<Op>, op: Op)
    requires ReplacedFor(t, q, p, done) && op.kind == Directory
    ensures ReplacedFor(t, q, p, done + [op])
  {
    forall x | !Names(done + [op], x) ensures Lookup(p.tree.files, x) == Lookup(t.files, x) {
      NamesAppended(done, op, x);
    }
    forall s ensures s in p.tree.stages <==> s in q.tree.stages && !Used(q, done + [op], s) {
      UsedMore(q, done, op, s);
    }
  }

  lemma CommitAdds(t: Tree, m: seq<Op>, q: Progress, p: Progress, done: seq<Op>, op: Op, faults: Faults)
    requires ReplacedFor(t, q, p, done) && p.failed.None? && Fits(t, m, q.tree.dirs, op) && !Clashes(t, m, op)
             && !Names(done, op.path)
    requires Writes(op) ==> op.path in q.staged
    ensures var p' := CommitOne(p, op, faults);
            && (p'.failed.Some? <==> ReplaceFault(op, faults))
            && ReplacedFor(t, q, p', if ReplaceFault(op, faults) then done else done + [op])
  {
    var p' := CommitOne(p, op, faults);
    CommitFails(t, m, q, p, done, op, faults);
    if op.kind == Directory {
      NothingReplaced(t, q, p, done, op);
    } else if !ReplaceFault(op, faults) {
      CommitPut(t, q, p, done, op, p');
    }
  }

  lemma NotNamed(done: seq<Op>, ops: seq<Op>)
    requires ops != [] && Distinct(done + ops)
    ensures !Names(done, ops[0].path)
  {
    NotAmong(done, ops);
    forall i | 0 <= i < |done| ensures done[i].path != ops[0].path { assert done[i] in done; }
  }

  /** Replacing goes on to the first operation with a fault. */
  lemma {:induction false} ReplacingGoes(t: Tree, m: seq<Op>, q: Progress, p: Progress, done: seq<Op>, ops: seq<Op>,
                                         faults: Faults) returns (k: nat)
    requires ReplacedFor(t, q, p, done) && p.failed.None? && Distinct(done + ops)
    requires forall op | op in ops ::
               Fits(t, m, q.tree.dirs, op) && !Clashes(t, m, op) && (Writes(op) ==> op.path in q.staged)
    ensures k <= |ops| && forall j | 0 <= j < k :: !ReplaceFault(ops[j], faults)
    ensures var r := CommitAll(p, ops, faults);
            && ReplacedFor(t, q, r, done + ops[..k])
            && if k < |ops| then r.failed.Some? && ReplaceFault(ops[k], faults) else r.failed.None?
    decreases |ops|
  {
    hide ReplacedFor, CommitOne, ReplaceFault, Fits, Clashes;
    if ops == [] {
      k := 0;
      assert done + ops[..0] == done;
    } else {
      var r := CommitOne(p, ops[0], faults);
      NotNamed(done, ops);
      CommitAdds(t, m, q, p, done, ops[0], faults);
      if ReplaceFault(ops[0], faults) {
        k := 0;
        StaysFailed(r, [], ops[1..], faults);
        assert done + ops[..0] == done;
      } else {
        assert (done + [ops[0]]) + ops[1..] == done + ops;
        k := ReplacingGoes(t, m, q, r, done + [ops[0]], ops[1..], faults);
        assert (done + [ops[0]]) + ops[1..][..k] == done + ops[..k + 1];
        k := k + 1;
      }
    }
  }

  // ---- the whole transaction ----

  /**
   The first operation that cannot be staged, and the first that cannot be put in place; the length if there is none.
   */
  ghost function FirstStageFault(t: Tree, m: seq<Op>, ops: seq<Op>, faults: Faults): (k: nat)
    ensures k <= |ops|
  {
    if ops == [] || StageFault(t, m, ops[0], faults) then 0 else 1 + FirstStageFault(t, m, ops[1..], faults)
  }

  function FirstReplaceFault(ops: seq<Op>, faults: Faults): (k: nat)
    ensures k <= |ops|
  {
    if ops == [] || ReplaceFault(ops[0], faults) then 0 else 1 + FirstReplaceFault(ops[1..], faults)
  }

  lemma {:induction false} FirstStageIs(t: Tree, m: seq<Op>, ops: seq<Op>, faults: Faults, k: nat)
    requires k <= |ops| && (forall j | 0 <= j < k :: !StageFault(t, m, ops[j], faults))
             && (k < |ops| ==> StageFault(t, m, ops[k], faults))
    ensures FirstStageFault(t, m, ops, faults) == k
  {
    if k > 0 { FirstStageIs(t, m, ops[1..], faults, k - 1); }
  }

  lemma {:induction false} FirstReplaceIs(ops: seq<Op>, faults: Faults, k: nat)
    requires k <= |ops| && (forall j | 0 <= j < k :: !ReplaceFault(ops[j], faults))
             && (k < |ops| ==> ReplaceFault(ops[k], faults))
    ensures FirstReplaceFault(ops, faults) == k
  {
    if k > 0 { FirstReplaceIs(ops[1..], faults, k - 1); }
  }

  /** The file of this operation is staged and not yet in place when the transaction fails. */
  ghost predicate Waits(t: Tree, ops: seq<Op>, faults: Faults, i: nat) {
    var m := Mutable(ops);
    && i < |m| && Writes(m[i]) && !MakingFault(t, ops, faults)
    && i < FirstStageFault(t, m, m, faults)
    && (FirstStageFault(t, m, m, faults) == |m| ==> FirstReplaceFault(m, faults) <= i)
  }

  /** ... and it was meant for directory `d` or one below it. */
  ghost predicate WaitsBelow(t: Tree, ops: seq<Op>, faults: Faults, i: nat, d: Path) {
    var m := Mutable(ops);
    Waits(t, ops, faults, i) && i < |m| && m[i].path != [] && d <= Parent(m[i].path)
  }

  ghost predicate WaitsFor(t: Tree, ops: seq<Op>, faults: Faults, i: nat, path: Path) {
    Waits(t, ops, faults, i) && i < |Mutable(ops)| && Mutable(ops)[i].path == path
  }

  ghost predicate Applicable(t: Tree, next: nat, ops: seq<Op>, order: seq<Path>) {
    Ready(t, next, ops, order) && FirstStale(t, ops).None?
  }

  lemma OpsFit(t: Tree, next: nat, ops: seq<Op>, order: seq<Path>, faults: Faults, op: Op)
    requires Applicable(t, next, ops, order) && Making(t, next, ops, order, faults).failed.None? && op in Mutable(ops)
    ensures Fits(t, Mutable(ops), Making(t, next, ops, order, faults).tree.dirs, op)
  {
    var p, m := Making(t, next, ops, order, faults), Mutable(ops);
    MakingHolds(t, next, ops, order, faults);
    FilteredDistinct(ops);
    assert StillPlanned(t, op);
    if op.kind == Regular {
      if op.path in p.made { assert op.path in order; }
      if op.path in Needed(m) { assert op.path in order && Present(p, m, op.path); }
      if op.state != Delete && Parent(op.path) != [] {
        TargetNeedsParent(m, op);
        assert Parent(op.path) in order && Present(p, m, Parent(op.path));
      }
    }
  }

  lemma TargetNeedsParent(ops: seq<Op>, op: Op)
    requires op in ops && Writes(op) && op.path != [] && Parent(op.path) != []
    ensures Parent(op.path) in Needed(ops)
  {
    var i :| 0 <= i < |ops| && ops[i] == op;
    assert ops[i].path[..|op.path| - 1] == Parent(op.path);
  }

  lemma NothingStaged(t: Tree, next: nat, ops: seq<Op>, order: seq<Path>, faults: Faults)
    requires Ready(t, next, ops, order)
    ensures StagedFor(t, Making(t, next, ops, order, faults), [])
  {
    DirectoriesOnly(Start(t, next), order, Mutable(ops), faults);
  }

  lemma NoneReplaced(t: Tree, q: Progress)
    requires q.tree.files == t.files
    ensures ReplacedFor(t, q, q, [])
  {}

  /** Staging gets to the first operation that cannot be staged. */
  lemma StagingGets(t: Tree, next: nat, ops: seq<Op>, order: seq<Path>, faults: Faults)
    requires Applicable(t, next, ops, order) && Making(t, next, ops, order, faults).failed.None?
    ensures var m, q := Mutable(ops), Staging(t, next, ops, order, faults);
            var k := FirstStageFault(t, m, m, faults);
            && q.tree.dirs == Making(t, next, ops, order, faults).tree.dirs && StagedFor(t, q, m[..k])
            && (q.failed.Some? <==> k < |m|)
  {
    hide StagedFor, StageFault, Fits, Clashes, Making, FirstStageFault;
    var m, made := Mutable(ops), Making(t, next, ops, order, faults);
    forall op | op in m ensures Fits(t, m, made.tree.dirs, op) { OpsFit(t, next, ops, order, faults, op); }
    FilteredDistinct(ops);
    NothingStaged(t, next, ops, order, faults);
    assert [] + m == m;
    var k := StagingGoes(t, m, made, [], m, faults);
    FirstStageIs(t, m, m, faults, k);
    assert [] + m[..k] == m[..k];
  }

  /** Replacing gets to the first operation that cannot be put in place. */
  lemma ReplacingGets(t: Tree, next: nat, ops: seq<Op>, order: seq<Path>, faults: Faults)
    requires Applicable(t, next, ops, order) && Making(t, next, ops, order, faults).failed.None?
    requires FirstStageFault(t, Mutable(ops), Mutable(ops), faults) == |Mutable(ops)|
    ensures var m, q, r := Mutable(ops), Staging(t, next, ops, order, faults), Passes(t, next, ops, order, faults);
            var l := FirstReplaceFault(m, faults);
            ReplacedFor(t, q, r, m[..l]) && (r.failed.Some? <==> l < |m|)
  {
    hide StagedFor, ReplacedFor, ReplaceFault, Fits, Clashes, Making, FirstReplaceFault, FirstStageFault;
    PassesAre(t, next, ops, order, faults);
    var m, q := Mutable(ops), Staging(t, next, ops, order, faults);
    StagingGets(t, next, ops, order, faults);
    forall op | op in m ensures Fits(t, m, q.tree.dirs, op) { OpsFit(t, next, ops, order, faults, op); }
    FilteredDistinct(ops);
    assert m[..|m|] == m && [] + m == m;
    AllStaged(t, q, m);
    NoneClashes(t, m, m, faults);
    forall op | op in m && op.kind == Directory ensures !Clashes(t, m, op) { DirectoriesDoNotClash(t, m, op); }
    NoneReplaced(t, q);
    var l := ReplacingGoes(t, m, q, q, [], m, faults);
    FirstReplaceIs(m, faults, l);
    assert [] + m[..l] == m[..l];
  }

  lemma DirectoriesDoNotClash(t: Tree, m: seq<Op>, op: Op)
    requires op.kind == Directory
    ensures !Clashes(t, m, op)
  {}

  /** How far the passes get: to the first fault. */
  lemma PassesGo(t: Tree, next: nat, ops: seq<Op>, order: seq<Path>, faults: Faults)
    requires Applicable(t, next, ops, order)
    ensures var m, made, q, r :=
            Mutable(ops), Making(t, next, ops, order, faults), Staging(t, next, ops, order, faults),
            Passes(t, next, ops, order, faults);
            if MakingFault(t, ops, faults) then made.failed.Some? && r == made
            else
              && made.failed.None? && StagedFor(t, q, m[..FirstStageFault(t, m, m, faults)])
              && if FirstStageFault(t, m, m, faults) < |m| then q.failed.Some? && r == q
                 else ReplacedFor(t, q, r, m[..FirstReplaceFault(m, faults)])
                      && (r.failed.Some? <==> FirstReplaceFault(m, faults) < |m|)
  {
    hide MakingFault, StagedFor, ReplacedFor, Making, FirstStageFault, FirstReplaceFault;
    var m, made, q := Mutable(ops), Making(t, next, ops, order, faults), Staging(t, next, ops, order, faults);
    PassesAre(t, next, ops, order, faults);
    MakingFails(t, next, ops, order, faults);
    if made.failed.Some? {
      StaysFailed(made, order, m, faults);
    } else {
      StagingGets(t, next, ops, order, faults);
      if q.failed.Some? { StaysFailed(q, order, m, faults); } else { ReplacingGets(t, next, ops, order, faults); }
    }
  }

  lemma PassesAre(t: Tree, next: nat, ops: seq<Op>, order: seq<Path>, faults: Faults)
    ensures var m, made, q := Mutable(ops), Making(t, next, ops, order, faults), Staging(t, next, ops, order, faults);
            q == StageAll(made, m, faults) && Passes(t, next, ops, order, faults) == CommitAll(q, m, faults)
  {}

  lemma AllStaged(t: Tree, q: Progress, m: seq<Op>)
    requires StagedFor(t, q, m)
    ensures q.tree.files == t.files && forall op | op in m && Writes(op) :: op.path in q.staged
  {
    forall op | op in m && Writes(op) ensures op.path in q.staged {
      var i :| 0 <= i < |m| && m[i] == op;
      assert Wrote(m, op.path);
    }
  }

  lemma {:induction false} NoneClashes(t: Tree, m: seq<Op>, ops: seq<Op>, faults: Faults)
    requires FirstStageFault(t, m, ops, faults) == |ops|
    ensures forall op | op in ops && op.kind == Regular :: !Clashes(t, m, op)
  {
    if ops != [] { NoneClashes(t, m, ops[1..], faults); }
  }

  /** The whole plan is carried out exactly when nothing is in its way. */
  lemma GoesThroughIff(t: Tree, next: nat, ops: seq<Op>, order: seq<Path>, faults: Faults)
    requires Applicable(t, next, ops, order)
    ensures Apply(t, next, ops, order, faults).1.None?
       <==> !MakingFault(t, ops, faults)
            && forall op | op in Mutable(ops) :: !StageFault(t, Mutable(ops), op, faults) && !ReplaceFault(op, faults)
  {
    hide MakingFault, StagedFor, ReplacedFor, StageFault, ReplaceFault, Passes;
    PassesGo(t, next, ops, order, faults);
    NoneFaults(t, Mutable(ops), Mutable(ops), faults);
  }

  lemma {:induction false} NoneFaults(t: Tree, m: seq<Op>, ops: seq<Op>, faults: Faults)
    ensures FirstStageFault(t, m, ops, faults) == |ops| <==> forall op | op in ops :: !StageFault(t, m, op, faults)
    ensures FirstReplaceFault(ops, faults) == |ops| <==> forall op | op in ops :: !ReplaceFault(op, faults)
  {
    if ops != [] {
      NoneFaults(t, m, ops[1..], faults);
      assert forall op :: op in ops <==> op == ops[0] || op in ops[1..];
    }
  }

  // ---- coherent plans ----

  /** A plan never changes a directory that is there, and never deletes one. */
  predicate OnlyCreatesDirectories(ops: seq<Op>) {
    forall op | op in Mutable(ops) && op.kind == Directory :: op.state == Create
  }

  /** No fault is in the way of an operation. */
  ghost predicate Unhindered(t: Tree, ops: seq<Op>, faults: Faults) {
    && (forall d | d in Needed(Mutable(ops)) && !Occupied(t, d) :: !faults(BeforeMkdir, d) && !faults(Mkdir, d))
    && (forall op | op in Mutable(ops) && op.kind == Regular ::
          !faults(BeforeStage, op.path) && (op.state != Delete ==> !faults(WriteStage, op.path))
            && !ReplaceFault(op, faults))
  }

  lemma CoherentHasNoClash(t: Tree, ops: seq<Op>)
    requires WellFormed(t) && Coherent(t, ops)
    ensures forall op | op in Mutable(ops) :: !Clashes(t, Mutable(ops), op)
    ensures forall d | d in Needed(Mutable(ops)) && d != [] :: Parent(d) !in t.files
  {
    var m := Mutable(ops);
    forall op | op in m ensures !Clashes(t, m, op) {
      if Writes(op) && op.path != [] && Parent(op.path) in t.files { TargetNeedsParent(m, op); }
    }
    forall d | d in Needed(m) && d != [] ensures Parent(d) !in t.files {
      if Parent(d) in t.files { ParentNeeded(m, d); }
    }
  }

  /** A file stands where a directory is needed: something is to be made or put right in it. */
  lemma FileInTheWay(t: Tree, ops: seq<Op>, d: Path)
    requires WellFormed(t) && OnlyCreatesDirectories(ops) && (forall op | op in ops :: StillPlanned(t, op))
    requires d in Needed(Mutable(ops)) && d in t.files
    ensures (exists op | op in Mutable(ops) :: op.kind == Regular && Clashes(t, Mutable(ops), op))
            || exists e | e in Needed(Mutable(ops)) :: e != [] && !Occupied(t, e) && Parent(e) in t.files
  {
    var m := Mutable(ops);
    MutableIn(ops);
    var i, k :| 0 <= i < |m| && 0 < k <= DirectoryDepth(m[i]) && k <= |m[i].path| && m[i].path[..k] == d;
    var op := m[i];
    assert op in m && StillPlanned(t, op);
    if k == DirectoryDepth(op) {
      assert op.path[..|op.path|] == op.path;
      assert Parent(op.path) == d;
      assert Clashes(t, m, op);
    } else {
      var e := op.path[..k + 1];
      assert m[i].path[..k + 1] == e;
      assert e in Needed(m) && Parent(e) == d;
      assert !Occupied(t, e);
    }
  }

  lemma IncoherentIsHindered(t: Tree, ops: seq<Op>, faults: Faults)
    requires WellFormed(t) && OnlyCreatesDirectories(ops) && (forall op | op in ops :: StillPlanned(t, op))
             && !Coherent(t, ops)
    ensures MakingFault(t, ops, faults) || exists op | op in Mutable(ops) :: StageFault(t, Mutable(ops), op, faults)
  {
    var m := Mutable(ops);
    MutableIn(ops);
    var d :| d in Needed(m) && !(d !in t.files && forall op | op in m && op.kind == Regular :: op.path != d);
    if d in t.files {
      FileInTheWay(t, ops, d);
      if op :| op in m && op.kind == Regular && Clashes(t, m, op) {
        assert StageFault(t, m, op, faults);
      } else {
        var e :| e in Needed(m) && e != [] && !Occupied(t, e) && Parent(e) in t.files;
        assert Blocked(t, e, faults);
        assert MakingFault(t, ops, faults);
      }
    } else {
      var op :| op in m && op.kind == Regular && op.path == d;
      FileOnDirectory(t, ops, op, faults);
    }
  }

  lemma FileOnDirectory(t: Tree, ops: seq<Op>, op: Op, faults: Faults)
    requires op in Mutable(ops) && op.kind == Regular && op.path in Needed(Mutable(ops)) && op.path !in t.files
             && StillPlanned(t, op)
    ensures StageFault(t, Mutable(ops), op, faults)
  {
    MutableIn(ops);
  }

  /**
   The whole plan is carried out exactly when no path is wanted both as a directory and as a file, and no fault is in
   the way.
   */
  lemma SucceedsIff(t: Tree, next: nat, ops: seq<Op>, order: seq<Path>, faults: Faults)
    requires Applicable(t, next, ops, order) && OnlyCreatesDirectories(ops)
    ensures Apply(t, next, ops, order, faults).1.None? <==> Coherent(t, ops) && Unhindered(t, ops, faults)
  {
    hide Apply, Coherent, Needed, Clashes, MakingFault, StageFault, ReplaceFault, Unhindered;
    GoesThroughIff(t, next, ops, order, faults);
    if Coherent(t, ops) {
      CoherentHasNoClash(t, ops);
      UnhinderedIff(t, ops, faults);
    } else {
      IncoherentIsHindered(t, ops, faults);
    }
  }

  lemma UnhinderedIff(t: Tree, ops: seq<Op>, faults: Faults)
    requires forall op | op in Mutable(ops) :: !Clashes(t, Mutable(ops), op)
    requires forall d | d in Needed(Mutable(ops)) && d != [] :: Parent(d) !in t.files
    ensures Unhindered(t, ops, faults) <==>
              !MakingFault(t, ops, faults)
              && forall op | op in Mutable(ops) :: !StageFault(t, Mutable(ops), op, faults) && !ReplaceFault(op, faults)
  {
    hide Clashes, Needed, Mutable;
    var m := Mutable(ops);
    if Unhindered(t, ops, faults) {
      forall op | op in m ensures !StageFault(t, m, op, faults) && !ReplaceFault(op, faults) {}
    } else if !MakingFault(t, ops, faults) {
      forall d | d in Needed(m) && !Occupied(t, d) ensures !faults(BeforeMkdir, d) && !faults(Mkdir, d) {
        assert !Blocked(t, d, faults);
      }
      var op :| op in m && op.kind == Regular
        && !(!faults(BeforeStage, op.path) && (op.state != Delete ==> !faults(WriteStage, op.path))
           && !ReplaceFault(op, faults));
      assert StageFault(t, m, op, faults) || ReplaceFault(op, faults);
    }
  }

  // ---- what waits when a transaction fails ----

  lemma AboveIsDirectory(t: Tree, q: Path, d: Path)
    requires WellFormed(t) && q in t.dirs && d <= q
    ensures d in t.dirs
  {
    PrefixIsDirectory(t, q, |d|);
    assert q[..|d|] == d;
  }

  lemma OldStagesLieElsewhere(t: Tree, d: Path, s: nat)
    requires WellFormed(t) && StagesPlaced(t) && d !in t.dirs && s in t.stages
    ensures t.stages[s].target != [] && !(d <= Parent(t.stages[s].target))
  {
    var q := Parent(t.stages[s].target);
    if d <= q { AboveIsDirectory(t, q, d); }
  }

  /** A stage of this transaction lies at or below `d`. */
  ghost predicate OwnStage(p: Progress, d: Path, path: Path) {
    path in p.staged && path != [] && p.staged[path] in p.tree.stages && d <= Parent(path)
  }

  lemma WaitingIsOwn(t: Tree, p: Progress, d: Path)
    requires WellFormed(t) && StagesPlaced(t) && d !in t.dirs
    requires forall s | s in t.stages :: s in p.tree.stages ==> p.tree.stages[s] == t.stages[s]
    requires forall s | s in p.tree.stages :: s in t.stages || s in p.staged.Values
    requires forall path | path in p.staged && p.staged[path] in p.tree.stages ::
             p.tree.stages[p.staged[path]].target == path
    ensures Waiting(p.tree, d) <==> exists path :: OwnStage(p, d, path)
  {
    if Waiting(p.tree, d) {
      var s :| s in p.tree.stages && p.tree.stages[s].target != [] && d <= Parent(p.tree.stages[s].target);
      if s in t.stages { OldStagesLieElsewhere(t, d, s); }
      var path :| path in p.staged && p.staged[path] == s;
      assert OwnStage(p, d, path);
    }
  }

  lemma StagesOfPasses(t: Tree, next: nat, ops: seq<Op>, order: seq<Path>, faults: Faults)
    requires Ready(t, next, ops, order)
    ensures var p := Passes(t, next, ops, order, faults);
            && (forall s | s in t.stages :: s in p.tree.stages && p.tree.stages[s] == t.stages[s])
            && (forall s | s in p.tree.stages :: s in t.stages || s in p.staged.Values)
  {
    PassesHold(t, next, ops, order, faults);
  }

  /** The own stages that are left, by the operation they are for. */
  lemma StagesLeft(t: Tree, next: nat, ops: seq<Op>, order: seq<Path>, faults: Faults, path: Path)
    requires Applicable(t, next, ops, order) && Passes(t, next, ops, order, faults).failed.Some?
    ensures var p, m := Passes(t, next, ops, order, faults), Mutable(ops);
            && (path in p.staged && p.staged[path] in p.tree.stages ==> p.tree.stages[p.staged[path]].target == path)
            && (path in p.staged && p.staged[path] in p.tree.stages
                <==> exists i :: WaitsFor(t, ops, faults, i, path))
  {
    var p, m, q := Passes(t, next, ops, order, faults), Mutable(ops), Staging(t, next, ops, order, faults);
    PassesGo(t, next, ops, order, faults);
    FilteredDistinct(ops);
    if MakingFault(t, ops, faults) {
      MakingHolds(t, next, ops, order, faults);
    } else if FirstStageFault(t, m, m, faults) < |m| {
      StagedAre(t, ops, faults, p, path);
    } else {
      ReplacedAre(t, ops, faults, q, p, path);
    }
  }

  lemma StagedAre(t: Tree, ops: seq<Op>, faults: Faults, p: Progress, path: Path)
    requires !MakingFault(t, ops, faults) && FirstStageFault(t, Mutable(ops), Mutable(ops), faults) < |Mutable(ops)|
    requires StagedFor(t, p, Mutable(ops)[..FirstStageFault(t, Mutable(ops), Mutable(ops), faults)])
    ensures path in p.staged ==> p.staged[path] in p.tree.stages && p.tree.stages[p.staged[path]].target == path
    ensures path in p.staged <==> exists i :: WaitsFor(t, ops, faults, i, path)
  {
    var m := Mutable(ops);
    var k := FirstStageFault(t, m, m, faults);
    if path in p.staged {
      var i :| 0 <= i < k && Writes(m[..k][i]) && m[..k][i].path == path;
      assert WaitsFor(t, ops, faults, i, path);
    }
    if i: nat :| WaitsFor(t, ops, faults, i, path) {
      assert m[..k][i] == m[i];
      assert Wrote(m[..k], path);
    }
  }

  lemma NotYetWritten(m: seq<Op>, l: nat, i: nat)
    requires Distinct(m) && l <= i < |m|
    ensures !Wrote(m[..l], m[i].path)
  {
    forall j | 0 <= j < |m[..l]| ensures m[..l][j].path != m[i].path { assert m[..l][j] == m[j]; }
  }

  lemma StageIsLeft(t: Tree, q: Progress, p: Progress, all: seq<Op>, done: seq<Op>, path: Path)
    requires StagedFor(t, q, all) && ReplacedFor(t, q, p, done)
    ensures path in p.staged && p.staged[path] in p.tree.stages ==> p.tree.stages[p.staged[path]].target == path
    ensures path in p.staged && p.staged[path] in p.tree.stages <==> Wrote(all, path) && !Wrote(done, path)
  {
    if path in q.staged {
      assert Used(q, done, q.staged[path]) <==> Wrote(done, path);
    }
  }

  lemma ReplacedAre(t: Tree, ops: seq<Op>, faults: Faults, q: Progress, p: Progress, path: Path)
    requires !MakingFault(t, ops, faults) && FirstStageFault(t, Mutable(ops), Mutable(ops), faults) == |Mutable(ops)|
             && Distinct(Mutable(ops))
    requires StagedFor(t, q, Mutable(ops)[..|Mutable(ops)|])
             && ReplacedFor(t, q, p, Mutable(ops)[..FirstReplaceFault(Mutable(ops), faults)])
    ensures path in p.staged && p.staged[path] in p.tree.stages ==> p.tree.stages[p.staged[path]].target == path
    ensures path in p.staged && p.staged[path] in p.tree.stages <==> exists i :: WaitsFor(t, ops, faults, i, path)
  {
    hide StagedFor, ReplacedFor, MakingFault;
    var m := Mutable(ops);
    var l := FirstReplaceFault(m, faults);
    assert m[..|m|] == m;
    StageIsLeft(t, q, p, m, m[..l], path);
    if Wrote(m, path) && !Wrote(m[..l], path) {
      var i :| 0 <= i < |m| && Writes(m[i]) && m[i].path == path;
      WrittenBefore(m, l, i);
      assert WaitsFor(t, ops, faults, i, path);
    }
    if i: nat :| WaitsFor(t, ops, faults, i, path) {
      assert Wrote(m, path);
      NotYetWritten(m, l, i);
    }
  }

  lemma WrittenBefore(m: seq<Op>, l: nat, i: nat)
    requires l <= |m| && i < |m| && Writes(m[i]) && !Wrote(m[..l], m[i].path)
    ensures l <= i
  {
    assert forall j | 0 <= j < l :: m[..l][j] == m[j];
  }

  /**
   Which directories a failure leaves behind, said with the plan and the faults: those that were made at or above the
   target of a file that was staged and not yet put in place.
   */
  lemma FailureLeaves(t: Tree, next: nat, ops: seq<Op>, order: seq<Path>, faults: Faults)
    requires Applicable(t, next, ops, order) && Apply(t, next, ops, order, faults).1.Some?
    requires forall p :: !faults(BeforeRestore, p) && !faults(Restore, p)
    ensures var t', m := Apply(t, next, ops, order, faults).0, Mutable(ops);
            && t'.files == t.files && t'.stages == t.stages
            && (forall d | d in t.dirs :: d in t'.dirs && t'.dirs[d] == t.dirs[d])
            && (forall d | d !in t.dirs ::
                  d in t'.dirs <==> d in Needed(m) && exists i :: WaitsBelow(t, ops, faults, i, d))
  {
    hide MakingFault, Waits, Waiting, Passes, Needed, StagesPlaced, WellFormed;
    var p, m := Passes(t, next, ops, order, faults), Mutable(ops);
    FailureRestores(t, next, ops, order, faults);
    PassesDirectories(t, next, ops, order, faults);
    forall d | d !in t.dirs
      ensures d in p.made && Waiting(p.tree, d) <==> d in Needed(m) && exists i :: WaitsBelow(t, ops, faults, i, d)
    {
      LeftIff(t, next, ops, order, faults, d);
    }
  }

  lemma WaitsHasParent(t: Tree, ops: seq<Op>, faults: Faults, i: nat)
    requires Waits(t, ops, faults, i) && forall op | op in ops :: op.path != []
    ensures i < |Mutable(ops)| && Mutable(ops)[i].path != [] && Writes(Mutable(ops)[i]) && !MakingFault(t, ops, faults)
  {
    assert Mutable(ops)[i] in Mutable(ops);
    MutableIn(ops);
  }

  lemma {:induction false} MutableIn(ops: seq<Op>)
    ensures forall op | op in Mutable(ops) :: op in ops && op.state != Unchanged
  {
    if ops != [] { MutableIn(ops[1..]); }
  }

  lemma MadeAbove(t: Tree, next: nat, ops: seq<Op>, order: seq<Path>, faults: Faults, d: Path, path: Path)
    requires Ready(t, next, ops, order) && d !in t.dirs && OwnStage(Passes(t, next, ops, order, faults), d, path)
    ensures d in Passes(t, next, ops, order, faults).made
  {
    StagingHolds(t, next, ops, order, faults);
    PassesHold(t, next, ops, order, faults);
    PassesPlace(t, next, ops, order, faults);
    AboveIsDirectory(Staging(t, next, ops, order, faults).tree, Parent(path), d);
    PassesDirectories(t, next, ops, order, faults);
  }

  lemma LeftIff(t: Tree, next: nat, ops: seq<Op>, order: seq<Path>, faults: Faults, d: Path)
    requires Applicable(t, next, ops, order) && Passes(t, next, ops, order, faults).failed.Some? && d !in t.dirs
    ensures var p, m := Passes(t, next, ops, order, faults), Mutable(ops);
            d in p.made && Waiting(p.tree, d) <==> d in Needed(m) && exists i :: WaitsBelow(t, ops, faults, i, d)
  {
    hide MakingFault, Waits, Waiting, Passes, Needed;
    var p, m := Passes(t, next, ops, order, faults), Mutable(ops);
    StagesOfPasses(t, next, ops, order, faults);
    forall path | path in p.staged && p.staged[path] in p.tree.stages
      ensures p.tree.stages[p.staged[path]].target == path {
      StagesLeft(t, next, ops, order, faults, path);
    }
    WaitingIsOwn(t, p, d);
    PassesDirectories(t, next, ops, order, faults);
    if d in p.made && Waiting(p.tree, d) {
      var path :| OwnStage(p, d, path);
      StagesLeft(t, next, ops, order, faults, path);
      var i: nat :| WaitsFor(t, ops, faults, i, path);
      assert WaitsBelow(t, ops, faults, i, d);
    }
    if i: nat :| d in Needed(m) && WaitsBelow(t, ops, faults, i, d) {
      WaitsHasParent(t, ops, faults, i);
      assert WaitsFor(t, ops, faults, i, m[i].path);
      StagesLeft(t, next, ops, order, faults, m[i].path);
      assert OwnStage(p, d, m[i].path);
      MadeAbove(t, next, ops, order, faults, d, m[i].path);
    }
  }

  /**
   So a failure gives back the whole tree exactly when every waiting file was meant for a directory that was there.
   */
  lemma FailureLeavesNothing(t: Tree, next: nat, ops: seq<Op>, order: seq<Path>, faults: Faults)
    requires Applicable(t, next, ops, order) && Apply(t, next, ops, order, faults).1.Some?
    requires forall p :: !faults(BeforeRestore, p) && !faults(Restore, p)
    ensures Apply(t, next, ops, order, faults).0 == t
       <==> forall i: nat | Waits(t, ops, faults, i) :: var m := Mutable(ops);
         i < |m| && m[i].path != [] && Parent(m[i].path) in t.dirs
  {
    hide MakingFault, Waits, Apply;
    var t', m := Apply(t, next, ops, order, faults).0, Mutable(ops);
    FailureLeaves(t, next, ops, order, faults);
    forall i: nat | Waits(t, ops, faults, i)
      ensures i < |m| && m[i].path != [] && (Parent(m[i].path) !in t.dirs ==> t' != t) {
      WaitsHasParent(t, ops, faults, i);
      var d := Parent(m[i].path);
      if d !in t.dirs {
        TargetNeedsParent(m, m[i]);
        assert WaitsBelow(t, ops, faults, i, d);
      }
    }
    if forall i: nat | Waits(t, ops, faults, i) :: Parent(m[i].path) in t.dirs {
      forall d | d in t'.dirs ensures d in t.dirs {
        if d !in t.dirs {
          var i: nat :| WaitsBelow(t, ops, faults, i, d);
          AboveIsDirectory(t, Parent(m[i].path), d);
        }
      }
      assert t'.dirs == t.dirs;
    }
  }

  // ---- a directory left behind without any fault ----

  const MIXED: seq<Op> := [
    Op(["a", "b"], Create, Regular, "text", 0x1A4, None),
    Op(["c"], Create, Regular, "text", 0x1A4, None),
    Op(["c", "d"], Create, Regular, "text", 0x1A4, None)]
  const MIXED_ORDER: seq<Path> := [["a"], ["c"]]

  lemma MixedNeeds()
    ensures Mutable(MIXED) == MIXED && forall d :: d in Needed(MIXED) <==> d == ["a"] || d == ["c"]
  {
    var m := MIXED;
    assert m[1..] == [m[1], m[2]] && m[1..][1..] == [m[2]] && m[1..][1..][1..] == [];
    assert m[0].path[..1] == ["a"] && m[2].path[..1] == ["c"];
    forall d | d in Needed(m) ensures d == ["a"] || d == ["c"] {
      var i, k :| 0 <= i < |m| && 0 < k <= DirectoryDepth(m[i]) && k <= |m[i].path| && d == m[i].path[..k];
      assert k == 1;
    }
  }

  lemma MixedIsApplicable(next: nat)
    ensures Applicable(LEAK_TREE, next, MIXED, MIXED_ORDER) && OnlyCreatesDirectories(MIXED)
  {
    MixedNeeds();
    hide Needed;
  }

  /** A plan that wants one path as a file and as a directory fails without any fault, and may leave a directory. */
  lemma FaultlessLeak(next: nat, faults: Faults)
    requires forall point, path :: !faults(point, path)
    ensures Applicable(LEAK_TREE, next, MIXED, MIXED_ORDER)
    ensures var (t', failed) := Apply(LEAK_TREE, next, MIXED, MIXED_ORDER, faults);
            failed.Some? && ["a"] !in LEAK_TREE.dirs && ["a"] in t'.dirs && ["c"] !in t'.dirs
  {
    hide Needed, Mutable, Apply;
    var t, m := LEAK_TREE, MIXED;
    MixedIsApplicable(next);
    MixedNeeds();
    assert ["c"] in Needed(Mutable(m)) && m[1] in Mutable(m);
    assert !Coherent(t, m);
    SucceedsIff(t, next, m, MIXED_ORDER, faults);
    assert !Clashes(t, m, m[0]) by { assert m[0].path != ["a"] && m[0].path != ["c"]; }
    assert !StageFault(t, m, m[0], faults) && StageFault(t, m, m[1], faults);
    assert FirstStageFault(t, m, m[1..], faults) == 0 && FirstStageFault(t, m, m, faults) == 1;
    assert !MakingFault(t, m, faults);
    assert Parent(m[0].path) == ["a"];
    assert WaitsBelow(t, m, faults, 0, ["a"]);
    FailureLeaves(t, next, m, MIXED_ORDER, faults);
    var c: Path := ["c"];
    assert c[0] != ["a"][0] && !(c <= ["a"]);
    forall i: nat ensures !WaitsBelow(t, m, faults, i, c) {}
  }
}

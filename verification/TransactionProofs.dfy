/** All or nothing: what a transaction leaves when it succeeds and when it fails. */
module TransactionProofs {
  import opened Wrappers
  import opened Transaction

  function Lookup(files: map<Path, File>, p: Path): Option<File> {
    if p in files then Some(files[p]) else None
  }

  function Target(op: Op): Option<File> {
    if op.state == Delete then None else Some(File(op.content, op.mode))
  }

  /** A plan has one operation for each path. */
  ghost predicate Distinct(ops: seq<Op>) {
    forall i, j | 0 <= i < j < |ops| :: ops[i].path != ops[j].path
  }

  ghost predicate Names(ops: seq<Op>, p: Path) {
    exists i | 0 <= i < |ops| :: ops[i].path == p
  }

  /** Files and directories are disjoint, and every one of them lies in a directory. */
  ghost predicate WellFormed(t: Tree) {
    && [] in t.dirs
    && (forall p | p in t.files :: p != [] && p !in t.dirs && Parent(p) in t.dirs)
    && (forall p | p in t.dirs && p != [] :: Parent(p) in t.dirs)
  }

  // ---- the planned files ----

  /** What a plan does to each path, said for the path and not for the list. */
  lemma {:induction false} PlannedAt(files: map<Path, File>, ops: seq<Op>, p: Path)
    requires Distinct(ops)
    ensures !Names(ops, p) ==> Lookup(Planned(files, ops), p) == Lookup(files, p)
    ensures forall i | 0 <= i < |ops| && ops[i].path == p :: Lookup(Planned(files, ops), p) == Target(ops[i])
  {
    if ops != [] {
      var rest := ops[..|ops| - 1];
      PlannedAt(files, rest, p);
      if Names(rest, p) { assert Names(ops, p); }
    }
  }

  lemma {:induction false} FilteredDistinct(ops: seq<Op>)
    requires Distinct(ops)
    ensures Distinct(Mutable(ops)) && Distinct(FileOps(ops))
    ensures forall op :: op in Mutable(ops) <==> op in ops && op.state != Unchanged
    ensures forall op :: op in FileOps(ops) <==> op in ops && op.kind == Regular
  {
    if ops != [] {
      FilteredDistinct(ops[1..]);
      assert forall op | op in ops[1..] :: op.path != ops[0].path;
      assert forall op :: op in ops <==> op == ops[0] || op in ops[1..];
    }
  }

  // ---- staging ----

  ghost predicate Prepared(t: Tree, next: nat, p: Progress) {
    && p.tree.files == t.files
    && p.committed == []
    && (forall path | path in p.originals :: p.originals[path] == Lookup(t.files, path))
    && StagesKept(t, next, p)
  }

  /** The stages in the tree are those from before and this transaction's own. */
  ghost predicate StagesKept(t: Tree, next: nat, p: Progress) {
    && next <= p.next
    && (forall path | path in p.staged :: next <= p.staged[path] < p.next)
    && (forall s | s in t.stages :: s < next)
    && (forall s | s in t.stages :: s in p.tree.stages && p.tree.stages[s] == t.stages[s])
    && (forall s | s in p.tree.stages :: s in t.stages || s in p.staged.Values)
  }

  lemma DropsOwnStages(t: Tree, next: nat, p: Progress, t': Tree)
    requires StagesKept(t, next, p) && t'.stages == p.tree.stages
    ensures DropStages(t', p.staged).stages == t.stages
  {
    assert forall s | s in p.staged.Values :: next <= s;
  }

  lemma {:induction false} DirectoriesOnly(p: Progress, order: seq<Path>, ops: seq<Op>, faults: Faults)
    ensures var q := MakeDirectories(p, order, ops, faults);
            q == p.(tree := p.tree.(dirs := q.tree.dirs), made := q.made, failed := q.failed)
    decreases |order|
  {
    if order != [] && p.failed.None? {
      DirectoriesOnly(MakeDirectory(p, order[0], ops, faults), order[1..], ops, faults);
    }
  }

  lemma {:induction false} StagingPrepares(t: Tree, next: nat, p: Progress, ops: seq<Op>, faults: Faults)
    requires Prepared(t, next, p) && Distinct(ops)
    requires forall op | op in ops :: op.path !in p.staged
    ensures var q := StageAll(p, ops, faults);
            && Prepared(t, next, q) && q.tree.dirs == p.tree.dirs && q.made == p.made
            && p.originals.Keys <= q.originals.Keys
            && (q.failed.None? ==> forall op | op in FileOps(ops) :: op.path in q.originals)
    decreases |ops|
  {
    if ops != [] && p.failed.None? {
      var p1 := StageOne(p, ops[0], faults);
      StageKeeps(t, next, p, ops[0], faults);
      assert forall op | op in ops[1..] :: op in ops && op.path != ops[0].path;
      StagingPrepares(t, next, p1, ops[1..], faults);
      assert forall op | op in FileOps(ops) :: op in FileOps(ops[1..]) || (op == ops[0] && ops[0].kind == Regular);
    }
  }

  lemma StageAdds(t: Tree, next: nat, p: Progress, path: Path, stage: Stage)
    requires StagesKept(t, next, p) && path !in p.staged
    ensures StagesKept(t, next, p.(tree := p.tree.(stages := p.tree.stages[p.next := stage]),
                                   staged := p.staged[path := p.next], next := p.next + 1))
  {
    var staged := p.staged[path := p.next];
    forall s | s in p.tree.stages && s !in t.stages ensures s in staged.Values {
      var x :| x in p.staged && p.staged[x] == s;
      assert staged[x] == s;
    }
    assert staged[path] == p.next;
  }

  lemma StageKeeps(t: Tree, next: nat, p: Progress, op: Op, faults: Faults)
    requires Prepared(t, next, p) && op.path !in p.staged
    ensures var q := StageOne(p, op, faults);
            && Prepared(t, next, q) && q.tree.dirs == p.tree.dirs && q.made == p.made
            && p.originals.Keys <= q.originals.Keys
            && q.staged.Keys <= p.staged.Keys + {op.path}
            && (q.failed.None? && op.kind == Regular ==> op.path in q.originals)
  {
    StageAdds(t, next, p, op.path, Stage(op.path, File(op.content, op.mode)));
  }

  // ---- committing ----

  /** Every operation of a list was carried out on files `files`, in a tree that still shows it. */
  ghost predicate Committed(t: Tree, next: nat, p: Progress, ops: seq<Op>) {
    && p.tree.files == Planned(t.files, p.committed)
    && Distinct(p.committed)
    && (forall op | op in p.committed ::
         op in ops && op.kind == Regular && op.path in p.originals && op.path !in p.tree.dirs)
    && (forall path | path in p.originals :: p.originals[path] == Lookup(t.files, path))
    && StagesKept(t, next, p)
  }

  lemma Appended(ops: seq<Op>, op: Op)
    requires Distinct(ops) && !Names(ops, op.path)
    ensures Distinct(ops + [op]) && (forall p :: Names(ops + [op], p) <==> Names(ops, p) || p == op.path)
    ensures forall x :: x in ops + [op] <==> x in ops || x == op
    ensures forall files: map<Path, File> :: Planned(files, ops + [op]) == WithFile(Planned(files, ops), op)
  {
    var all := ops + [op];
    assert all[..|all| - 1] == ops;
    forall p | Names(ops, p) || p == op.path ensures Names(all, p) {
      if Names(ops, p) {
        var i :| 0 <= i < |ops| && ops[i].path == p;
        assert all[i].path == p;
      } else {
        assert all[|ops|].path == p;
      }
    }
    forall i, j | 0 <= i < j < |all| ensures all[i].path != all[j].path {
      if j == |ops| { assert ops[i].path != op.path; }
    }
  }

  lemma StageUsed(t: Tree, next: nat, p: Progress, path: Path)
    requires StagesKept(t, next, p) && path in p.staged
    ensures StagesKept(t, next, p.(tree := p.tree.(stages := p.tree.stages - {p.staged[path]})))
  {
    assert next <= p.staged[path];
  }

  lemma CommitKeeps(t: Tree, next: nat, p: Progress, op: Op, ops: seq<Op>, faults: Faults)
    requires Committed(t, next, p, ops) && op in ops && !Names(p.committed, op.path)
    requires op.kind == Regular ==> op.path in p.originals
    requires op.state != Unchanged && p.failed.None?
    requires forall path | path in t.files :: path !in p.tree.dirs
    ensures var q := CommitOne(p, op, faults);
            && Committed(t, next, q, ops)
            && q == p.(tree := q.tree, committed := q.committed, failed := q.failed) && q.tree.dirs == p.tree.dirs
            && (op.kind == Regular && q.failed.None? ==> q.committed == p.committed + [op])
            && (op.kind == Directory || q.failed.Some? ==> q.committed == p.committed)
  {
    var q := CommitOne(p, op, faults);
    if op.kind == Regular && q.failed.None? {
      Appended(p.committed, op);
      PlannedAt(t.files, p.committed, op.path);
      assert Lookup(p.tree.files, op.path) == Lookup(t.files, op.path);
      if op.state != Delete { StageUsed(t, next, p, op.path); }
    }
  }

  lemma NamesAppended(ops: seq<Op>, x: Op, p: Path)
    ensures Names(ops + [x], p) <==> Names(ops, p) || p == x.path
  {
    var all := ops + [x];
    assert all[|ops|] == x;
    assert forall i | 0 <= i < |ops| :: all[i] == ops[i];
  }

  lemma RestUnnamed(committed: seq<Op>, committed': seq<Op>, ops: seq<Op>)
    requires ops != [] && Distinct(ops) && (committed' == committed || committed' == committed + [ops[0]])
    requires forall op | op in ops :: !Names(committed, op.path)
    ensures Distinct(ops[1..])
    ensures forall op | op in ops[1..] :: op in ops && !Names(committed', op.path)
  {
    forall op | op in ops[1..] ensures op in ops && !Names(committed', op.path) {
      assert op in ops && op.path != ops[0].path;
      NamesAppended(committed, ops[0], op.path);
    }
  }

  /** When nothing fails, every file operation is committed, in order. */
  lemma {:induction false} CommitsInOrder(p: Progress, ops: seq<Op>, faults: Faults)
    requires CommitAll(p, ops, faults).failed.None?
    ensures CommitAll(p, ops, faults).committed == p.committed + FileOps(ops)
    decreases |ops|
  {
    hide CommitOne;
    if ops == [] {
      assert p.committed + FileOps(ops) == p.committed;
    } else {
      var p1 := CommitOne(p, ops[0], faults);
      OneCommitted(p, ops[0], faults);
      if p.failed.Some? || p1.failed.Some? { StopsCommitting(p1, ops[1..], faults); }
      CommitsInOrder(p1, ops[1..], faults);
      assert p.committed + ([ops[0]] + FileOps(ops[1..])) == (p.committed + [ops[0]]) + FileOps(ops[1..]);
      assert [] + FileOps(ops[1..]) == FileOps(ops[1..]);
    }
  }

  lemma OneCommitted(p: Progress, op: Op, faults: Faults)
    ensures var q := CommitOne(p, op, faults);
            q.failed.None? ==> q.committed == if op.kind == Directory then p.committed else p.committed + [op]
  {}

  lemma StopsCommitting(p: Progress, ops: seq<Op>, faults: Faults)
    requires p.failed.Some?
    ensures CommitAll(p, ops, faults) == p
  {}

  lemma {:induction false} CommittingKeeps(t: Tree, next: nat, p: Progress, ops: seq<Op>, all: seq<Op>, faults: Faults)
    requires Committed(t, next, p, all) && Distinct(ops)
    requires forall op | op in ops :: op in all && op.state != Unchanged && !Names(p.committed, op.path)
    requires p.failed.None? ==> forall op | op in ops && op.kind == Regular :: op.path in p.originals
    requires forall path | path in t.files :: path !in p.tree.dirs
    ensures var q := CommitAll(p, ops, faults);
            && Committed(t, next, q, all)
            && q == p.(tree := q.tree, committed := q.committed, failed := q.failed) && q.tree.dirs == p.tree.dirs
    decreases |ops|
  {
    if ops != [] && p.failed.None? {
      var p1 := CommitOne(p, ops[0], faults);
      CommitKeeps(t, next, p, ops[0], all, faults);
      RestUnnamed(p.committed, p1.committed, ops);
      CommittingKeeps(t, next, p1, ops[1..], all, faults);
    }
  }

  // ---- undoing ----

  /** Undoing the last of a list of operations leaves the files that the others planned. */
  lemma UndoLast(files: map<Path, File>, ops: seq<Op>, t: Tree, originals: map<Path, Option<File>>, faults: Faults)
    requires ops != [] && Distinct(ops) && t.files == Planned(files, ops)
    requires var last := ops[|ops| - 1];
             && !faults(BeforeRestore, last.path) && !faults(Restore, last.path)
             && last.path !in t.dirs && last.path in originals && originals[last.path] == Lookup(files, last.path)
    ensures UndoOne(t, ops[|ops| - 1], originals, faults) == t.(files := Planned(files, ops[..|ops| - 1]))
  {
    var last, rest := ops[|ops| - 1], ops[..|ops| - 1];
    PlannedAt(files, ops, last.path);
    assert Target(last) == Lookup(t.files, last.path);
    assert PostimageHolds(t, last);
    PlannedAt(files, rest, last.path);
    assert Lookup(Planned(files, rest), last.path) == Lookup(files, last.path);
    var t' := UndoOne(t, last, originals, faults);
    forall p ensures Lookup(t'.files, p) == Lookup(Planned(files, rest), p) {}
    SameFiles(t'.files, Planned(files, rest));
  }

  lemma SameFiles(a: map<Path, File>, b: map<Path, File>)
    requires forall p :: Lookup(a, p) == Lookup(b, p)
    ensures a == b
  {
    assert forall p :: p in a <==> Lookup(a, p).Some?;
    assert forall p :: p in b <==> Lookup(b, p).Some?;
    assert forall p | p in a :: a[p] == Lookup(a, p).value && b[p] == Lookup(b, p).value;
  }

  lemma {:induction false} UndoRestores(files: map<Path, File>, ops: seq<Op>, t: Tree,
                                        originals: map<Path, Option<File>>, faults: Faults)
    requires Distinct(ops) && t.files == Planned(files, ops)
    requires forall p :: !faults(BeforeRestore, p) && !faults(Restore, p)
    requires forall op | op in ops ::
               op.path !in t.dirs && op.path in originals && originals[op.path] == Lookup(files, op.path)
    ensures UndoAll(t, ops, originals, faults) == t.(files := files)
    decreases |ops|
  {
    if ops != [] {
      UndoLast(files, ops, t, originals, faults);
      UndoRestores(files, ops[..|ops| - 1], t.(files := Planned(files, ops[..|ops| - 1])), originals, faults);
    }
  }

  /** Even when restoring fails, no path ends up with anything but its old or its planned content. */
  lemma {:induction false} UndoMixes(files: map<Path, File>, base: map<Path, File>, ops: seq<Op>, t: Tree,
                                     originals: map<Path, Option<File>>, faults: Faults, p: Path)
    requires Lookup(t.files, p) == Lookup(files, p) || Lookup(t.files, p) == Lookup(base, p)
    requires forall op | op in ops && op.path in originals :: originals[op.path] == Lookup(files, op.path)
    ensures var t' := UndoAll(t, ops, originals, faults);
            && t'.dirs == t.dirs && t'.stages == t.stages
            && (Lookup(t'.files, p) == Lookup(files, p) || Lookup(t'.files, p) == Lookup(base, p))
    decreases |ops|
  {
    if ops != [] {
      var last := ops[|ops| - 1];
      assert last in ops;
      UndoMixes(files, base, ops[..|ops| - 1], UndoOne(t, last, originals, faults), originals, faults, p);
    }
  }
}

/** The directories of a transaction: which ones it makes, and which ones a failure leaves behind. */
module TransactionDirectories {
  import opened Wrappers
  import opened Transaction
  import opened TransactionProofs

  /** Staged files lie in directories. */
  ghost predicate StagesPlaced(t: Tree) {
    forall s | s in t.stages :: t.stages[s].target != [] && Parent(t.stages[s].target) in t.dirs
  }

  /** The directories made so far are new, parents first, and are all that was added. */
  ghost predicate Made(t: Tree, p: Progress) {
    && p.tree.files == t.files
    && ByDepth(p.made)
    && (forall d | d in p.made :: d != [] && d !in t.dirs && d !in t.files)
    && (forall d :: d in p.tree.dirs <==> d in t.dirs || d in p.made)
    && (forall d | d in t.dirs :: p.tree.dirs[d] == t.dirs[d])
    && WellFormed(p.tree)
  }

  lemma DepthAppended(made: seq<Path>, d: Path)
    requires ByDepth(made) && forall m | m in made :: m != d && |m| <= |d|
    ensures ByDepth(made + [d])
  {
    var all := made + [d];
    forall i, j | 0 <= i < j < |all| ensures all[i] != all[j] && |all[i]| <= |all[j]| {
      if j == |made| { assert made[i] in made; }
    }
  }

  lemma AddedIsWellFormed(t: Tree, d: Path, mode: int)
    requires WellFormed(t) && !Occupied(t, d) && d != [] && Parent(d) in t.dirs
    ensures WellFormed(t.(dirs := t.dirs[d := mode]))
  {}

  lemma MakeOneKeeps(t: Tree, p: Progress, d: Path, ops: seq<Op>, faults: Faults)
    requires WellFormed(t) && Made(t, p)
    requires forall m | m in p.made :: m != d && |m| <= |d|
    ensures var q := MakeDirectory(p, d, ops, faults);
            && Made(t, q) && (q.made == p.made || q.made == p.made + [d])
            && (q.failed.None? ==> Occupied(q.tree, d) && (d in q.made ==> q.tree.dirs[d] == ModeOf(ops, d)))
            && (forall m | m in p.made :: m in q.tree.dirs && q.tree.dirs[m] == p.tree.dirs[m])
  {
    var q := MakeDirectory(p, d, ops, faults);
    if !Occupied(p.tree, d) && d != [] && Parent(d) in p.tree.dirs {
      DepthAppended(p.made, d);
      AddedIsWellFormed(p.tree, d, ModeOf(ops, d));
    }
    if q.tree != p.tree {
      assert forall x :: x in q.made <==> x in p.made || x == d;
    }
  }

  /** A needed directory exists afterwards, and a new one has its planned mode. */
  ghost predicate Present(p: Progress, ops: seq<Op>, d: Path) {
    Occupied(p.tree, d) && (d in p.made ==> d in p.tree.dirs && p.tree.dirs[d] == ModeOf(ops, d))
  }

  lemma {:induction false} MakingKeeps(t: Tree, p: Progress, done: seq<Path>, order: seq<Path>, ops: seq<Op>,
                                       faults: Faults)
    requires WellFormed(t) && Made(t, p) && ByDepth(done + order)
    requires forall m | m in p.made :: m in done
    requires p.failed.None? ==> forall d | d in done :: Present(p, ops, d)
    ensures var q := MakeDirectories(p, order, ops, faults);
            && Made(t, q)
            && (forall m | m in q.made :: m in done + order)
            && (q.failed.None? ==> forall d | d in done + order :: Present(q, ops, d))
    decreases |order|
  {
    if order != [] && p.failed.None? {
      var d := order[0];
      var q := MakeDirectory(p, d, ops, faults);
      forall m | m in p.made ensures m != d && |m| <= |d| {
        var i :| 0 <= i < |done| && done[i] == m;
        assert (done + order)[i] == m && (done + order)[|done|] == d;
      }
      MakeOneKeeps(t, p, d, ops, faults);
      assert (done + [d]) + order[1..] == done + order;
      if q.failed.None? {
        forall x | x in done + [d] ensures Present(q, ops, x) {
          if x in done { assert Present(p, ops, x); }
        }
      }
      MakingKeeps(t, q, done + [d], order[1..], ops, faults);
    } else {
      assert order == [] ==> done + order == done;
    }
  }

  // ---- removal ----

  /** A staged file waits in directory `d` or below it. */
  ghost predicate Waiting(t: Tree, d: Path) {
    exists s | s in t.stages :: t.stages[s].target != [] && d <= Parent(t.stages[s].target)
  }

  lemma {:induction false} PrefixIsDirectory(t: Tree, p: Path, k: nat)
    requires WellFormed(t) && p in t.dirs && k <= |p|
    ensures p[..k] in t.dirs
    decreases |p| - k
  {
    if k < |p| {
      PrefixIsDirectory(t, p, k + 1);
      assert Parent(p[..k + 1]) == p[..k];
    } else {
      assert p[..k] == p;
    }
  }

  /** While directories are removed from the back: the ones before `k` are there, of the others the waiting ones. */
  ghost predicate Removing(t0: Tree, full: Tree, made: seq<Path>, k: nat, t: Tree)
    requires k <= |made|
  {
    && t == full.(dirs := t.dirs)
    && (forall d :: d in t.dirs <==> d in t0.dirs || d in made[..k] || (d in made[k..] && Waiting(full, d)))
  }

  ghost predicate Removable(t0: Tree, full: Tree, made: seq<Path>) {
    && WellFormed(t0) && WellFormed(full) && StagesPlaced(full) && ByDepth(made)
    && full.files == t0.files
    && (forall d | d in made :: d != [] && d !in t0.dirs)
    && (forall d :: d in full.dirs <==> d in t0.dirs || d in made)
  }

  lemma WaitingIsFull(t0: Tree, full: Tree, made: seq<Path>, k: nat, t: Tree)
    requires Removable(t0, full, made) && 0 < k <= |made| && Removing(t0, full, made, k, t)
             && Waiting(full, made[k - 1])
    ensures !Empty(t, made[k - 1])
  {
    var d := made[k - 1];
    var s :| s in full.stages && full.stages[s].target != [] && d <= Parent(full.stages[s].target);
    var q := Parent(full.stages[s].target);
    if q != d {
      var c := q[..|d| + 1];
      PrefixIsDirectory(full, q, |d| + 1);
      assert Parent(c) == d;
      assert c in made;
      var i :| 0 <= i < |made| && made[i] == c;
      assert i >= k;
      assert c in made[k..];
      assert c <= q && Waiting(full, c);
    }
  }

  lemma WaitingAbove(t: Tree, d: Path, p: Path)
    requires Waiting(t, p) && d <= p
    ensures Waiting(t, d)
  {
    var s :| s in t.stages && t.stages[s].target != [] && p <= Parent(t.stages[s].target);
    assert d <= Parent(t.stages[s].target);
  }

  lemma NotWaitingIsEmpty(t0: Tree, full: Tree, made: seq<Path>, k: nat, t: Tree)
    requires Removable(t0, full, made) && 0 < k <= |made| && Removing(t0, full, made, k, t)
             && !Waiting(full, made[k - 1])
    ensures Empty(t, made[k - 1])
  {
    var d := made[k - 1];
    assert d in made;
    forall p | p in t.files ensures p == [] || Parent(p) != d {
      assert p in t0.files;
    }
    forall s | s in t.stages ensures t.stages[s].target == [] || Parent(t.stages[s].target) != d {}
    forall p | p in t.dirs && p != [] ensures Parent(p) != d {
      if p in t0.dirs {
        assert Parent(p) in t0.dirs;
      } else if p in made[..k] {
        var i :| 0 <= i < k && made[i] == p;
        assert |p| <= |d|;
      } else {
        assert Waiting(full, p);
        assert Parent(p) <= p;
        WaitingAbove(full, Parent(p), p);
      }
    }
  }

  lemma {:induction false} RemovesTheRest(t0: Tree, full: Tree, made: seq<Path>, k: nat, t: Tree)
    requires Removable(t0, full, made) && k <= |made| && Removing(t0, full, made, k, t)
    ensures var t' := RemoveDirectories(t, made[..k]);
            Removing(t0, full, made, 0, t')
  {
    if k > 0 {
      var d := made[k - 1];
      assert made[..k][k - 1] == d && made[..k][..k - 1] == made[..k - 1];
      var t1 := RemoveDirectory(t, d);
      assert d in made[..k];
      if Waiting(full, d) { WaitingIsFull(t0, full, made, k, t); } else { NotWaitingIsEmpty(t0, full, made, k, t); }
      assert made[k - 1..] == [d] + made[k..] && made[..k] == made[..k - 1] + [d];
      assert d !in made[..k - 1] && d !in made[k..];
      RemovesTheRest(t0, full, made, k - 1, t1);
    } else {
      assert made[..0] == [];
    }
  }

  /** Exactly the made directories with a staged file waiting at or below them are left. */
  lemma RemovesAllButWaiting(t0: Tree, full: Tree, made: seq<Path>)
    requires Removable(t0, full, made)
    ensures var t' := RemoveDirectories(full, made);
            t' == full.(dirs := t'.dirs)
            && forall d :: d in t'.dirs <==> d in t0.dirs || (d in made && Waiting(full, d))
  {
    assert made[..|made|] == made && made[|made|..] == [] && made[0..] == made;
    RemovesTheRest(t0, full, made, |made|, full);
  }
}

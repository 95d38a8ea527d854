/**
 Applying a reconciliation plan as one transaction.

 A plan is applied in passes: make the missing directories, stage every new
 content beside its target, then replace or delete the targets one by one.  Any
 failure undoes what was committed, in reverse order, and removes the
 directories that were made; the staged files go last, whatever happened.

 A content digest is modelled by the content it was taken from.
 */
module Transaction {
  import opened Wrappers

  /** A path below the project root, as its components; the root is the empty path. */
  type Path = seq<string>

  datatype File = File(content: string, mode: int)

  /** A staged or restored file beside `target`, under a name that nothing else uses. */
  datatype Stage = Stage(target: Path, file: File)

  datatype Tree = Tree(files: map<Path, File>, dirs: map<Path, int>, stages: map<nat, Stage>)

  datatype OpState = Create | Update | Delete | Unchanged
  datatype Kind = Directory | Regular

  datatype Op = Op(path: Path, state: OpState, kind: Kind, content: string, mode: int, expected: Option<string>)

  /** Where a step can fail, by an injected fault or by the operating system. */
  datatype Point = BeforeMkdir | Mkdir | BeforeStage | WriteStage | BeforeReplace | Replace | BeforeRestore | Restore

  type Faults = (Point, Path) -> bool

  const DEFAULT_DIRECTORY_MODE := 0x1ED  // rwxr-xr-x

  function Parent(p: Path): Path
    requires p != []
  {
    p[..|p| - 1]
  }

  predicate Occupied(t: Tree, p: Path) {
    p in t.files || p in t.dirs
  }

  /** The target is still what the plan saw. */
  predicate PreimageHolds(t: Tree, op: Op) {
    match op.state
    case Create => !Occupied(t, op.path)
    case Update => op.path in t.files && op.expected == Some(t.files[op.path].content)
    case Delete =>
      op.path in t.files && op.expected == Some(t.files[op.path].content) && t.files[op.path].mode == op.mode
    case Unchanged => true
  }

  /** The target is what the operation left. */
  predicate PostimageHolds(t: Tree, op: Op) {
    if op.state == Delete then !Occupied(t, op.path)
    else op.path in t.files && t.files[op.path] == File(op.content, op.mode)
  }

  function WithFile(files: map<Path, File>, op: Op): map<Path, File> {
    if op.state == Delete then files - {op.path} else files[op.path := File(op.content, op.mode)]
  }

  /** The files after every operation of a list. */
  function Planned(files: map<Path, File>, ops: seq<Op>): map<Path, File> {
    if ops == [] then files else WithFile(Planned(files, ops[..|ops| - 1]), ops[|ops| - 1])
  }

  function Mutable(ops: seq<Op>): (r: seq<Op>) {
    if ops == [] then []
    else (if ops[0].state == Unchanged then [] else [ops[0]]) + Mutable(ops[1..])
  }

  function FileOps(ops: seq<Op>): (r: seq<Op>) {
    if ops == [] then []
    else (if ops[0].kind == Directory then [] else [ops[0]]) + FileOps(ops[1..])
  }

  // ---- the directories a list of operations needs ----

  /** How many leading components of an operation's path must be directories. */
  function DirectoryDepth(op: Op): int {
    if op.kind == Directory then |op.path| else if op.state == Delete then 0 else |op.path| - 1
  }

  ghost function Needed(ops: seq<Op>): set<Path> {
    set i, k | 0 <= i < |ops| && 0 < k <= DirectoryDepth(ops[i]) && k <= |ops[i].path| :: ops[i].path[..k]
  }

  ghost predicate ByDepth(order: seq<Path>) {
    && (forall i, j | 0 <= i < j < |order| :: order[i] != order[j])
    && (forall i, j | 0 <= i < j < |order| :: |order[i]| <= |order[j]|)
  }

  /** Every needed directory once, parents before children. */
  ghost predicate ValidOrder(order: seq<Path>, ops: seq<Op>) {
    && ByDepth(order)
    && (forall d :: d in order <==> d in Needed(ops))
  }

  function ModeOf(ops: seq<Op>, d: Path): int {
    if ops == [] then DEFAULT_DIRECTORY_MODE
    else if ops[|ops| - 1].kind == Directory && ops[|ops| - 1].path == d then ops[|ops| - 1].mode
    else ModeOf(ops[..|ops| - 1], d)
  }

  // ---- the passes ----

  /** A transaction under way: the tree, and what it will need to undo. */
  datatype Progress = Progress(
    tree: Tree, made: seq<Path>, staged: map<Path, nat>, originals: map<Path, Option<File>>,
    committed: seq<Op>, next: nat, failed: Option<Path>)

  function Start(t: Tree, next: nat): Progress {
    Progress(t, [], map[], map[], [], next, None)
  }

  function Fail(p: Progress, path: Path): Progress {
    p.(failed := Some(path))
  }

  /** A failure here is reported against the first operation of the plan. */
  function MakeDirectory(p: Progress, d: Path, ops: seq<Op>, faults: Faults): Progress {
    if Occupied(p.tree, d) then p
    else if faults(BeforeMkdir, d) || faults(Mkdir, d) || d == [] || Parent(d) !in p.tree.dirs then
      Fail(p, if ops == [] then d else ops[0].path)
    else p.(tree := p.tree.(dirs := p.tree.dirs[d := ModeOf(ops, d)]), made := p.made + [d])
  }

  function MakeDirectories(p: Progress, order: seq<Path>, ops: seq<Op>, faults: Faults): Progress
    decreases |order|
  {
    if order == [] || p.failed.Some? then p
    else MakeDirectories(MakeDirectory(p, order[0], ops, faults), order[1..], ops, faults)
  }

  function StageOne(p: Progress, op: Op, faults: Faults): Progress {
    if op.kind == Directory then p
    else if !PreimageHolds(p.tree, op) || faults(BeforeStage, op.path) then Fail(p, op.path)
    else
      var original := if op.state == Create || op.path !in p.tree.files then None else Some(p.tree.files[op.path]);
      var p1 := p.(originals := p.originals[op.path := original]);
      if op.state == Delete then p1
      else if faults(WriteStage, op.path) || op.path == [] || Parent(op.path) !in p.tree.dirs then Fail(p1, op.path)
      else
        var stages := p.tree.stages[p.next := Stage(op.path, File(op.content, op.mode))];
        p1.(tree := p.tree.(stages := stages), staged := p.staged[op.path := p.next], next := p.next + 1)
  }

  function StageAll(p: Progress, ops: seq<Op>, faults: Faults): Progress
    decreases |ops|
  {
    if ops == [] || p.failed.Some? then p else StageAll(StageOne(p, ops[0], faults), ops[1..], faults)
  }

  function CommitOne(p: Progress, op: Op, faults: Faults): Progress {
    if op.kind == Directory then p
    else if !PreimageHolds(p.tree, op) || faults(BeforeReplace, op.path) || faults(Replace, op.path)
      then Fail(p, op.path)
    else if op.state != Delete && op.path !in p.staged then Fail(p, op.path)
    else
      var files := WithFile(p.tree.files, op);
      var stages := if op.state == Delete then p.tree.stages else p.tree.stages - {p.staged[op.path]};
      p.(tree := p.tree.(files := files, stages := stages), committed := p.committed + [op])
  }

  function CommitAll(p: Progress, ops: seq<Op>, faults: Faults): Progress
    decreases |ops|
  {
    if ops == [] || p.failed.Some? then p else CommitAll(CommitOne(p, ops[0], faults), ops[1..], faults)
  }

  /** Undo one committed operation; a failure here is noted by the program and the rest goes on. */
  function UndoOne(t: Tree, op: Op, originals: map<Path, Option<File>>, faults: Faults): Tree {
    if faults(BeforeRestore, op.path) || faults(Restore, op.path) || !PostimageHolds(t, op) || op.path !in originals
      then t
    else match originals[op.path]
      case None => t.(files := t.files - {op.path})
      case Some(file) => t.(files := t.files[op.path := file])
  }

  function UndoAll(t: Tree, committed: seq<Op>, originals: map<Path, Option<File>>, faults: Faults): Tree
    decreases |committed|
  {
    if committed == [] then t
    else
      var last := committed[|committed| - 1];
      UndoAll(UndoOne(t, last, originals, faults), committed[..|committed| - 1], originals, faults)
  }

  predicate Empty(t: Tree, d: Path) {
    && (forall p | p in t.files :: p == [] || Parent(p) != d)
    && (forall p | p in t.dirs :: p == [] || Parent(p) != d)
    && (forall s | s in t.stages :: t.stages[s].target == [] || Parent(t.stages[s].target) != d)
  }

  function RemoveDirectory(t: Tree, d: Path): Tree {
    if d in t.dirs && Empty(t, d) then t.(dirs := t.dirs - {d}) else t
  }

  function RemoveDirectories(t: Tree, made: seq<Path>): Tree
    decreases |made|
  {
    if made == [] then t
    else RemoveDirectories(RemoveDirectory(t, made[|made| - 1]), made[..|made| - 1])
  }

  function DropStages(t: Tree, staged: map<Path, nat>): Tree {
    t.(stages := map s | s in t.stages && s !in staged.Values :: t.stages[s])
  }

  function Closed(p: Progress, faults: Faults): Tree {
    var t := if p.failed.None? then p.tree
             else RemoveDirectories(UndoAll(p.tree, p.committed, p.originals, faults), p.made);
    DropStages(t, p.staged)
  }

  function Passes(t: Tree, next: nat, ops: seq<Op>, order: seq<Path>, faults: Faults): Progress {
    var mutable := Mutable(ops);
    CommitAll(StageAll(MakeDirectories(Start(t, next), order, mutable, faults), mutable, faults), mutable, faults)
  }

  // ---- the whole transaction ----

  /** What an operation was planned from is still there. */
  predicate StillPlanned(t: Tree, op: Op) {
    match op.kind
    case Directory => (op.state == Create ==> !Occupied(t, op.path)) && (op.state == Unchanged ==> op.path in t.dirs)
    case Regular =>
      && PreimageHolds(t, op)
      && (op.state == Unchanged && op.expected.Some? ==>
            op.path in t.files && t.files[op.path].content == op.expected.value)
  }

  /** The first operation whose premise no longer holds, checked before anything is changed. */
  function FirstStale(t: Tree, ops: seq<Op>): (r: Option<Path>)
    ensures r.None? <==> forall op | op in ops :: StillPlanned(t, op)
  {
    if ops == [] then None else if !StillPlanned(t, ops[0]) then Some(ops[0].path) else FirstStale(t, ops[1..])
  }

  /** The tree a transaction leaves, and the path it reports as failed, if any. */
  function Apply(t: Tree, next: nat, ops: seq<Op>, order: seq<Path>, faults: Faults): (Tree, Option<Path>) {
    var stale := FirstStale(t, ops);
    if stale.Some? then (t, stale)
    else
      var p := Passes(t, next, ops, order, faults);
      (Closed(p, faults), p.failed)
  }
}

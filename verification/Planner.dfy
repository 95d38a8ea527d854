/** Planning: what each intent asks of the project as it is, and that an applied plan leaves nothing to ask for. */
module Planner {
  import opened Wrappers
  import opened JsonValues
  import opened Transaction
  import opened TransactionProofs
  import opened TransactionDirectories
  import opened TransactionTheorems
  import ManagedFile
  import SharedBlock
  import JsonEntries
  import JsonEntriesProofs
  import KeyedLists
  import KeyedListsProofs

  datatype Intent =
    | DirectoryIntent(path: Path, mode: int)
    | ManagedIntent(path: Path, mode: int, managed: ManagedFile.Managed, adopt: set<string>)
    | CreateOnlyIntent(path: Path, mode: int, content: string)
    | ExactFileIntent(path: Path, mode: int, content: string, expected: string)
    | ExactDeleteIntent(path: Path, mode: int, expected: string)
    | SharedBlockIntent(path: Path, mode: int, block: SharedBlock.Block)
    | SharedJsonIntent(path: Path, mode: int, entries: seq<JsonEntries.Entry>)
    | KeyedListIntent(path: Path, mode: int, lists: seq<KeyedLists.Entry>)

  function Write(i: Intent, state: OpState, content: string, mode: int, existing: Option<File>): Op {
    Op(i.path, state, Regular, content, mode, if existing.Some? then Some(existing.value.content) else None)
  }

  // ---- one intent ----

  function PlanManaged(c: Codec, i: Intent, existing: Option<File>): Result<Op, string>
    requires i.ManagedIntent?
  {
    match ManagedFile.Render(c, i.managed)
    case Err(e) => Err(e)
    case Ok(desired) =>
      if existing.None? then Ok(Write(i, Create, desired, i.mode, existing))
      else
        var text := existing.value.content;
        match ManagedFile.Parse(c, text, i.managed.style)
        case Err(e) => Err(e)
        case Ok(None) =>
          if c.digest(text) in i.adopt then Ok(Write(i, Update, desired, i.mode, existing))
          else Err("unmarked file occupies managed path")
        case Ok(Some(_)) =>
          if !ManagedFile.Authentic(c, text, i.managed.source, i.managed.style) then
            Err("managed file was locally modified or is another owner's")
          else if text == desired && existing.value.mode == i.mode
            then Ok(Write(i, Unchanged, desired, i.mode, existing))
          else Ok(Write(i, Update, desired, i.mode, existing))
  }

  function PlanBlock(c: Codec, i: Intent, existing: Option<File>): Result<Op, string>
    requires i.SharedBlockIntent?
  {
    if existing.None? then Ok(Write(i, Create, SharedBlock.Render(c, i.block), i.mode, existing))
    else
      match SharedBlock.Merge(c, existing.value.content, i.block)
      case Err(e) => Err(e)
      case Ok(merged) =>
        Ok(Write(i, if merged == existing.value.content then Unchanged
          else Update, merged, existing.value.mode, existing))
  }

  /** The object in a shared JSON file; a missing file counts as an empty object. */
  function CurrentObject(c: Codec, existing: Option<File>): (r: Result<Json, string>)
    ensures r.Ok? ==> r.value.Obj?
  {
    if existing.None? then Ok(Obj(map[]))
    else match c.parse(existing.value.content)
      case None => Err("shared JSON is malformed")
      case Some(v) => if v.Obj? then Ok(v) else Err("shared JSON root is not an object")
  }

  function MergeInto(i: Intent, current: Json): (r: Result<(Json, bool), string>)
    requires (i.SharedJsonIntent? || i.KeyedListIntent?) && current.Obj?
  {
    if i.SharedJsonIntent? then JsonEntries.Merge(current, i.entries) else KeyedLists.Merge(current, i.lists)
  }

  function PlanJson(c: Codec, i: Intent, existing: Option<File>): Result<Op, string>
    requires i.SharedJsonIntent? || i.KeyedListIntent?
  {
    match CurrentObject(c, existing)
    case Err(e) => Err(e)
    case Ok(current) =>
      match MergeInto(i, current)
      case Err(e) => Err(e)
      case Ok((merged, changed)) =>
        var content := c.indented(merged) + "\n";
        if existing.None? then Ok(Write(i, Create, content, i.mode, existing))
        else if changed then Ok(Write(i, Update, content, existing.value.mode, existing))
        else Ok(Write(i, Unchanged, "", existing.value.mode, existing))
  }

  function PlanExact(c: Codec, i: Intent, existing: Option<File>): Result<Op, string>
    requires i.ExactFileIntent? || i.ExactDeleteIntent?
  {
    if existing.None? then Err("authenticated source is missing")
    else if c.digest(existing.value.content) != i.expected then Err("authenticated source changed")
    else if i.ExactFileIntent? then Ok(Write(i, Update, i.content, i.mode, existing))
    else if existing.value.mode != i.mode then Err("authenticated deletion source mode changed")
    else Ok(Write(i, Delete, "", i.mode, existing))
  }

  function PlanFile(c: Codec, i: Intent, existing: Option<File>): Result<Op, string>
    requires !i.DirectoryIntent?
  {
    match i
    case ManagedIntent(_, _, _, _) => PlanManaged(c, i, existing)
    case CreateOnlyIntent(_, _, content) =>
      if existing.Some? then Ok(Op(i.path, Unchanged, Regular, "", i.mode, None))
        else Ok(Write(i, Create, content, i.mode, existing))
    case SharedBlockIntent(_, _, _) => PlanBlock(c, i, existing)
    case SharedJsonIntent(_, _, _) => PlanJson(c, i, existing)
    case KeyedListIntent(_, _, _) => PlanJson(c, i, existing)
    case ExactFileIntent(_, _, _, _) => PlanExact(c, i, existing)
    case ExactDeleteIntent(_, _, _) => PlanExact(c, i, existing)
  }

  function PlanIntent(c: Codec, t: Tree, i: Intent): Result<Op, string> {
    if i.DirectoryIntent? then
      if i.path in t.files then Err("directory path is occupied")
      else Ok(Op(i.path, if i.path in t.dirs then Unchanged else Create, Directory, "", i.mode, None))
    else if i.path in t.dirs then Err("file path is occupied")
    else PlanFile(c, i, Lookup(t.files, i.path))
  }

  // ---- all intents ----

  predicate SafePath(path: Path) {
    path != [] && forall k | 0 <= k < |path| :: path[k] != "" && path[k] != "." && path[k] != ".."
  }

  predicate Mentions(intents: seq<Intent>, path: Path) {
    exists k | 0 <= k < |intents| :: intents[k].path == path
  }

  /** The first intent for each path. */
  function Firsts(intents: seq<Intent>): seq<Intent> {
    if intents == [] then []
    else
      var rest, last := Firsts(intents[..|intents| - 1]), intents[|intents| - 1];
      if Mentions(rest, last.path) then rest else rest + [last]
  }

  /** All intents for a path must be the same one. */
  function PlanPath(c: Codec, t: Tree, intents: seq<Intent>, i: Intent): Result<Op, string> {
    if exists k | 0 <= k < |intents| :: intents[k].path == i.path && intents[k] != i then
      Err("incompatible duplicate contributions")
    else PlanIntent(c, t, i)
  }

  /** A managed source that cannot be rendered stops the whole planning; it is no conflict of its path. */
  predicate Unrenderable(c: Codec, t: Tree, intents: seq<Intent>, i: Intent) {
    && (forall k | 0 <= k < |intents| :: intents[k].path == i.path ==> intents[k] == i)
    && i.ManagedIntent? && i.path !in t.dirs && ManagedFile.Render(c, i.managed).Err?
  }

  datatype Plan = Plan(ops: seq<Op>, conflicts: seq<(Path, string)>)

  function AddTo(plan: Plan, path: Path, planned: Result<Op, string>): Plan {
    match planned
    case Ok(op) => plan.(ops := plan.ops + [op])
    case Err(reason) => plan.(conflicts := plan.conflicts + [(path, reason)])
  }

  function PlanOver(c: Codec, t: Tree, intents: seq<Intent>, firsts: seq<Intent>): Plan {
    if firsts == [] then Plan([], [])
    else
      var last := firsts[|firsts| - 1];
      AddTo(PlanOver(c, t, intents, firsts[..|firsts| - 1]), last.path, PlanPath(c, t, intents, last))
  }

  function Reconcile(c: Codec, t: Tree, intents: seq<Intent>): Result<Plan, string> {
    if exists k | 0 <= k < |intents| :: !SafePath(intents[k].path) then Err("unsafe project-relative path")
    else if exists k | 0 <= k < |Firsts(intents)| :: Unrenderable(c, t, intents, Firsts(intents)[k]) then
      Err("managed source cannot be rendered")
    else Ok(PlanOver(c, t, intents, Firsts(intents)))
  }

  /** The program: candidates are gathered by path, then planned one by one. */
  method PlanReconciliation(c: Codec, t: Tree, intents: seq<Intent>) returns (r: Result<Plan, string>)
    ensures r == Reconcile(c, t, intents)
  {
    hide Unrenderable, PlanPath, SafePath, Mentions;
    var firsts: seq<Intent> := [];
    assert intents[..|intents|] == intents;
    for k := 0 to |intents|
      invariant forall j | 0 <= j < k :: SafePath(intents[j].path)
      invariant firsts == Firsts(intents[..k])
    {
      assert intents[..k + 1][..k] == intents[..k];
      if !SafePath(intents[k].path) {
        return Err("unsafe project-relative path");
      }
      if !Mentions(firsts, intents[k].path) {
        firsts := firsts + [intents[k]];
      }
    }
    var plan := Plan([], []);
    assert firsts[..|firsts|] == firsts;
    for k := 0 to |firsts|
      invariant forall j | 0 <= j < k :: !Unrenderable(c, t, intents, firsts[j])
      invariant plan == PlanOver(c, t, intents, firsts[..k])
    {
      if Unrenderable(c, t, intents, firsts[k]) {
        return Err("managed source cannot be rendered");
      }
      assert firsts[..k + 1][..k] == firsts[..k];
      plan := AddTo(plan, firsts[k].path, PlanPath(c, t, intents, firsts[k]));
    }
    r := Ok(plan);
  }
}

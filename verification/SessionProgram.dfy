/**
 The running store performs exactly the operations of the specification, one after the other, and stays consistent.
 */
module SessionProgram {
  import opened Wrappers
  import opened SessionTables
  import opened SessionInvariants
  import opened SessionStore
  import NameSearch

  method TouchRecord(store: Store, key: Key, at: int)
    modifies store`records
    ensures store.Contents() == Touch(old(store.Contents()), key, at)
  {
    if key !in store.records { store.records := store.records[key := BlankRecord(at)]; }
  }

  method DescribeRecord(store: Store, key: Key, project: string, cwd: string, at: int)
    modifies store`records
    ensures store.Contents() == Describe(old(store.Contents()), key, project, cwd, at)
  {
    TouchRecord(store, key, at);
    store.records := store.records[key := store.records[key].(project := Some(project), resumeCwd := Some(cwd))];
  }

  method StopRecord(store: Store, key: Key, body: Option<BodyId>, lost: bool, at: int)
    modifies store`records
    ensures store.Contents() == MarkStopped(old(store.Contents()), key, body, lost, at)
  {
    if key !in store.records || store.records[key].state != Running || store.records[key].bodyId != body { return; }
    var stopped := store.records[key].(state := Stopped, stoppedAt := Some(at));
    if lost { stopped := stopped.(lostAt := Some(at)); }
    store.records := store.records[key := stopped];
  }

  method YieldName(store: Store, keys: set<Key>)
    modifies store`records
    ensures store.Contents() == Unnamed(old(store.Contents()), keys)
  {
    ghost var t := store.Contents();
    var holders := set key | key in keys && key in store.records;
    NameSearch.ClearHolders(store, holders);
    assert Unnamed(t, holders).records == Unnamed(t, keys).records;
  }

  method TakeNameOf(store: Store, key: Key, name: string, ownLane: Option<BodyId>)
    requires key in store.records
    modifies store
    ensures store.Contents() == TakeName(old(store.Contents()), key, name, ownLane)
  {
    var holders := set other | other in store.records && other != key && Holds(store.records, other, name);
    var lane := if ownLane.Some? && ownLane.value in store.lanes then ownLane else None;
    NameSearch.TakeFreeName(store, key, name, holders, lane);
  }

  method PerformOnRecord(store: Store, op: Op)
    requires op.OpTouch? || op.OpDescribe? || op.OpMarkStopped? || op.OpRename? || op.OpAdopt? || op.OpDestroy?
    modifies store
    ensures store.Contents() == Apply(old(store.Contents()), op)
  {
    match op
    case OpTouch(key, at) => TouchRecord(store, key, at);
    case OpDescribe(key, project, cwd, at) => DescribeRecord(store, key, project, cwd, at);
    case OpMarkStopped(key, body, lost, at) => StopRecord(store, key, body, lost, at);
    case OpRename(key, name, at) => var _ := store.RenameRecord(key, name, at);
    case OpAdopt(key, name, project, cwd, sandbox, at) =>
      var _ := store.AdoptRecord(key, name, project, cwd, sandbox, at);
    case OpDestroy(key, at) => var _ := store.DestroyRecord(key, at);
  }

  method PerformOnLaunch(store: Store, op: Op)
    requires op.OpReserve? || op.OpBind? || op.OpCancel? || op.OpRevoke? || op.OpExpire?
    modifies store
    ensures store.Contents() == Apply(old(store.Contents()), op)
  {
    match op
    case OpReserve(r, at, later) => var _ := store.ReserveLaunch(r, at, later);
    case OpBind(h, at, writes) => var _ := store.BindLaunch(h, at, writes);
    case OpCancel(token, body, stopped) => var _ := store.CancelLaunch(token, body, stopped);
    case OpRevoke(body) => var _ := store.RevokeUnclaimed(body);
    case OpExpire(at) => store.RemoveExpired(at);
  }

  method PerformOnLane(store: Store, op: Op)
    requires op.OpCreateLane? || op.OpTransition? || op.OpForeground?
    modifies store
    ensures store.Contents() == Apply(old(store.Contents()), op)
  {
    match op
    case OpCreateLane(body, name, project, cwd, at) => var _ := store.MakeLane(body, name, project, cwd, at);
    case OpTransition(body, change, at) => var _ := store.MoveLane(body, change, at);
    case OpForeground(body, generation, group, at) => var _ := store.NoteForeground(body, generation, group, at);
  }

  /** One operation, as the program carries it out on its tables. */
  method Perform(store: Store, op: Op)
    requires op.OpTakeName? ==> op.key in store.records
    modifies store
    ensures store.Contents() == Apply(old(store.Contents()), op)
  {
    if op.OpReserve? || op.OpBind? || op.OpCancel? || op.OpRevoke? || op.OpExpire? {
      PerformOnLaunch(store, op);
    } else if op.OpCreateLane? || op.OpTransition? || op.OpForeground? {
      PerformOnLane(store, op);
    } else if op.OpYieldName? {
      YieldName(store, op.keys);
    } else if op.OpTakeName? {
      TakeNameOf(store, op.key, op.name, op.ownLane);
    } else {
      PerformOnRecord(store, op);
    }
  }

  function ApplyAll(t: Tables, ops: seq<Op>): Tables {
    if ops == [] then t else Apply(ApplyAll(t, ops[..|ops| - 1]), ops[|ops| - 1])
  }

  lemma OneMore(t: Tables, ops: seq<Op>, k: nat)
    requires k < |ops|
    ensures ApplyAll(t, ops[..k + 1]) == Apply(ApplyAll(t, ops[..k]), ops[k])
  {
    assert ops[..k + 1][..k] == ops[..k];
  }

  /**
   Any number of operations on a consistent store, up to the first that the assumptions about a run exclude: the tables
   are those of the specification, and consistent all the way.
   */
  method PerformAll(store: Store, ops: seq<Op>) returns (done: nat)
    requires Consistent(store.Contents())
    modifies store
    ensures done <= |ops| && (done < |ops| ==> !Admissible(store.Contents(), ops[done]))
    ensures store.Contents() == ApplyAll(old(store.Contents()), ops[..done])
    ensures forall k | 0 <= k <= done :: Consistent(ApplyAll(old(store.Contents()), ops[..k]))
  {
    hide Consistent, Apply, Admissible;
    done := 0;
    ghost var t := store.Contents();
    assert ops[..0] == [];
    while done < |ops|
      invariant done <= |ops| && store.Contents() == ApplyAll(t, ops[..done])
      invariant forall k | 0 <= k <= done :: Consistent(ApplyAll(t, ops[..k]))
    {
      var admissible := IsAdmissible(store, ops[done]);
      if !admissible { return; }
      StepKeeps(store.Contents(), ops[done]);
      OneMore(t, ops, done);
      Perform(store, ops[done]);
      done := done + 1;
    }
  }

  /** Whether a run may go on with this operation. */
  method IsAdmissible(store: Store, op: Op) returns (r: bool)
    ensures r == Admissible(store.Contents(), op)
    ensures r && op.OpTakeName? ==> op.key in store.records
  {
    r := true;
    if op.OpReserve? && op.request.newBody {
      r := forall token | token in store.launches :: store.launches[token].bodyId != op.request.bodyId;
    } else if op.OpTakeName? {
      r := op.key in store.records && store.records[op.key].state != Tombstoned;
      if r {
        var lanesHeld, _ := NameSearch.SurveyLanes(store, op.key);
        var held := NameSearch.AddLaunchNames(store, lanesHeld);
        assert held == HeldNames(store.Contents(), op.key);
        r := op.name !in held;
      }
    }
  }
}

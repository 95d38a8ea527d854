/**
 What every run of store operations keeps: one holder for each name, one open
 capability for each shell body, one resume for each conversation, and
 tombstones that stay.  A run may stop any operation after any of its durable
 writes.
 */
module SessionInvariants {
  import opened Wrappers
  import opened SessionTables

  datatype Op =
    | OpReserve(request: Request, at: int, later: int)
    | OpBind(hook: Hook, at: int, writes: nat)
    | OpCancel(token: Token, bodyId: BodyId, bodyStopped: bool)
    | OpRevoke(bodyId: BodyId)
    | OpExpire(at: int)
    | OpTouch(key: Key, at: int)
    | OpDescribe(key: Key, project: string, cwd: string, at: int)
    | OpMarkStopped(key: Key, body: Option<BodyId>, lost: bool, at: int)
    | OpRename(key: Key, name: string, at: int)
    | OpAdopt(key: Key, newName: Option<string>, project: string, cwd: string, sandbox: bool, at: int)
    | OpDestroy(key: Key, at: int)
    | OpYieldName(keys: set<Key>)
    | OpTakeName(key: Key, name: string, ownLane: Option<BodyId>)
    | OpCreateLane(bodyId: BodyId, newName: Option<string>, project: string, cwd: string, at: int)
    | OpTransition(bodyId: BodyId, change: Change, at: int)
    | OpForeground(bodyId: BodyId, generation: nat, group: int, at: int)

  function Apply(t: Tables, op: Op): Tables {
    match op
    case OpReserve(r, at, later) => Reserve(t, r, at, later).tables
    case OpBind(h, at, writes) => Bind(t, h, at, writes).tables
    case OpCancel(token, body, stopped) => Cancel(t, token, body, stopped).tables
    case OpRevoke(body) => Revoke(t, body)
    case OpExpire(at) => t.(launches := Unexpired(t.launches, at))
    case OpTouch(key, at) => Touch(t, key, at)
    case OpDescribe(key, project, cwd, at) => Describe(t, key, project, cwd, at)
    case OpMarkStopped(key, body, lost, at) => MarkStopped(t, key, body, lost, at)
    case OpRename(key, name, at) => Rename(t, key, name, at).tables
    case OpAdopt(key, name, project, cwd, sandbox, at) => Adopt(t, key, name, project, cwd, sandbox, at).tables
    case OpDestroy(key, at) => Destroy(t, key, at).tables
    case OpYieldName(keys) => Unnamed(t, keys)
    case OpTakeName(key, name, ownLane) => if key in t.records then TakeName(t, key, name, ownLane) else t
    case OpCreateLane(body, name, project, cwd, at) => CreateLane(t, body, name, project, cwd, at).tables
    case OpTransition(body, change, at) => Transition(t, body, change, at).tables
    case OpForeground(body, generation, group, at) => RecordForeground(t, body, generation, group, at).tables
  }

  /**
   The only assumptions about a run: a generated body identifier is new, and the name search gives a
   name that it did not find held.  OpYieldName is a name search that died while it was clearing the
   former holders.
   */
  predicate Admissible(t: Tables, op: Op) {
    && (op.OpReserve? && op.request.newBody ==>
          forall token | token in t.launches :: t.launches[token].bodyId != op.request.bodyId)
    && (op.OpTakeName? ==>
          op.key in t.records && t.records[op.key].state != Tombstoned && op.name !in HeldNames(t, op.key))
  }

  // ---- one holder for each name ----

  ghost predicate OneHolder(t: Tables) {
    forall k1, k2, n :: Holds(t.records, k1, n) && Holds(t.records, k2, n) ==> k1 == k2
  }

  ghost predicate OneReservation(t: Tables) {
    forall a, b | a in t.launches && b in t.launches && t.launches[a].name.Some?
        && t.launches[a].name == t.launches[b].name :: a == b
  }

  predicate MayHold(launch: Launch, key: Key) {
    launch.operation == Resume(key) || launch.claim == Claimed(key)
  }

  ghost predicate ReservedForHolder(t: Tables) {
    forall a, k | a in t.launches && t.launches[a].name.Some? && Holds(t.records, k, t.launches[a].name.value) ::
      MayHold(t.launches[a], k)
  }

  ghost predicate NameSpace(t: Tables) {
    OneHolder(t) && OneReservation(t) && ReservedForHolder(t)
  }

  // ---- one open capability for each body, one resume for each conversation ----

  ghost predicate OneUnclaimed(t: Tables) {
    forall a, b, body | a in t.launches && b in t.launches && Unclaimed(t.launches[a], body)
        && Unclaimed(t.launches[b], body) :: a == b
  }

  ghost predicate OneResume(t: Tables) {
    forall a, b | a in t.launches && b in t.launches && t.launches[a].operation.Resume?
      && t.launches[a].operation == t.launches[b].operation :: a == b
  }

  ghost predicate Consistent(t: Tables) {
    NameSpace(t) && OneUnclaimed(t) && OneResume(t)
  }

  /** Dropping launches keeps everything. */
  lemma FewerLaunches(t: Tables, launches: map<Token, Launch>)
    requires Consistent(t)
    requires forall a | a in launches :: a in t.launches && launches[a] == t.launches[a]
    ensures Consistent(t.(launches := launches))
  {
  }

  lemma PublishKeeps(t: Tables, r: Request, at: int)
    requires Consistent(t)
    requires forall token | token in t.launches :: !Unclaimed(t.launches[token], r.bodyId)
    requires r.token !in t.launches
    requires r.operation.Resume? ==> !ResumeTargets(t.launches, r.operation.target)
    ensures Consistent(Publish(t, r, at).tables)
  {
    var t' := Publish(t, r, at).tables;
    if NameRefusal(t, r).None? {
      assert forall a | a in t'.launches :: a == r.token || (a in t.launches && t'.launches[a] == t.launches[a]);
    }
  }

  lemma ReserveKeeps(t: Tables, r: Request, at: int, later: int)
    requires Consistent(t) && Admissible(t, OpReserve(r, at, later))
    ensures Consistent(Reserve(t, r, at, later).tables)
  {
    var unexpired := Unexpired(t.launches, at);
    var open := if r.newBody then unexpired else WithoutUnclaimed(unexpired, r.bodyId);
    var t1 := t.(launches := open);
    var t2 := t.(launches := Unexpired(open, later));
    FewerLaunches(t, open);
    FewerLaunches(t, t2.launches);
    if InvalidRequest(r).None? && r.token !in open {
      if r.operation.New? {
        PublishKeeps(t1, r, at);
      } else if !ResumeTargets(t2.launches, r.operation.target) {
        PublishKeeps(t2, r, at);
      }
    }
  }

  lemma FinishBindKeeps(t: Tables, h: Hook, at: int, writes: nat, consume: bool)
    requires Consistent(t)
    ensures Consistent(FinishBind(t, h, at, writes, consume).tables)
  {
    FewerLaunches(t, t.launches - {h.token});
  }

  /** Claiming a launch changes the claim of that launch alone. */
  lemma ClaimKeeps(t: Tables, h: Hook, at: int)
    requires Consistent(t) && CapabilityRefusal(t, h, at).None?
    ensures Consistent(ClaimFor(t, h)) && LaunchOf(ClaimFor(t, h), h)
  {
    var t1 := ClaimFor(t, h);
    assert forall a | a in t1.launches && a != h.token :: t1.launches[a] == t.launches[a];
  }

  predicate LaunchOf(t: Tables, h: Hook) {
    h.token in t.launches && MayHold(t.launches[h.token], h.key)
  }

  /** The record of a claimed launch may take the name that the launch reserved. */
  lemma RecordKeeps(t: Tables, h: Hook, at: int)
    requires Consistent(t) && LaunchOf(t, h) && t.launches[h.token].claim == Claimed(h.key)
    requires t.launches[h.token].operation.Resume? ==>
               h.key in t.records && t.records[h.key].state != Tombstoned
                 && t.records[h.key].name == t.launches[h.token].name
    requires t.launches[h.token].operation.Resume? ==> t.launches[h.token].operation == Resume(h.key)
    requires t.launches[h.token].operation.New? ==> h.key !in t.records
    ensures Consistent(WithRecord(t, h, at))
  {
    var launch := t.launches[h.token];
    var t2 := WithRecord(t, h, at);
    assert forall k | k in t.records && k != h.key :: t2.records[k] == t.records[k];
    assert t2.records[h.key].name == launch.name;
    assert forall k, n | k != h.key && Holds(t2.records, k, n) :: Holds(t.records, k, n);
    forall n | Holds(t2.records, h.key, n) ensures launch.name == Some(n) {}
    if launch.name.Some? {
      forall k | Holds(t.records, k, launch.name.value) ensures k == h.key {
        assert MayHold(launch, k);
      }
    }
  }

  /** Claiming and publishing the record: the record takes the name that its own launch reserved. */
  lemma PublishRecordKeeps(t: Tables, h: Hook, at: int)
    requires Consistent(t) && CapabilityRefusal(t, h, at).None?
    ensures Consistent(ClaimFor(t, h)) && Consistent(WithRecord(ClaimFor(t, h), h, at))
  {
    ClaimKeeps(t, h, at);
    RecordKeeps(ClaimFor(t, h), h, at);
  }

  lemma BindKeeps(t: Tables, h: Hook, at: int, writes: nat)
    requires Consistent(t)
    ensures Consistent(Bind(t, h, at, writes).tables)
  {
    if AlreadyRuns(t, h) {
      FinishBindKeeps(t, h, at, writes, true);
      FinishBindKeeps(t, h, at, writes, false);
    } else if CapabilityRefusal(t, h, at).Some? {
      FewerLaunches(t, t.launches - {h.token});
    } else {
      PublishRecordKeeps(t, h, at);
      if writes >= 2 {
        FinishBindKeeps(WithRecord(ClaimFor(t, h), h, at), h, at, writes - 2, true);
      }
    }
  }

  lemma SetNameKeeps(t: Tables, key: Key, name: string)
    requires Consistent(t) && key in t.records
    requires !RecordNamed(t.records, name, Some(key)) && !LaunchNamed(t.launches, name)
    ensures Consistent(SetName(t, key, Some(name)))
  {
    var t' := SetName(t, key, Some(name));
    assert forall k, n | k != key && Holds(t'.records, k, n) :: Holds(t.records, k, n);
    assert forall n | Holds(t'.records, key, n) :: n == name;
  }

  lemma UnnamedKeeps(t: Tables, keys: set<Key>)
    requires Consistent(t)
    ensures Consistent(Unnamed(t, keys))
  {
    var t' := Unnamed(t, keys);
    assert forall k, n | Holds(t'.records, k, n) :: Holds(t.records, k, n);
  }

  lemma TakeNameKeeps(t: Tables, key: Key, name: string, ownLane: Option<BodyId>)
    requires Consistent(t) && Admissible(t, OpTakeName(key, name, ownLane))
    ensures Consistent(TakeName(t, key, name, ownLane))
  {
    var holders := Holders(t, key, name);
    var t1 := Unnamed(t, holders);
    UnnamedKeeps(t, holders);
    assert !LaunchNamed(t1.launches, name) by {
      assert forall token | token in t.launches && t.launches[token].name.Some? ::
          t.launches[token].name.value in HeldNames(t, key);
    }
    assert !RecordNamed(t1.records, name, Some(key)) by {
      forall k | k in t1.records && Holds(t1.records, k, name) ensures k == key {
        assert Holds(t.records, k, name);
      }
    }
    SetNameKeeps(t1, key, name);
  }

  lemma StateChangeKeeps(t: Tables, t': Tables)
    requires Consistent(t) && t'.launches == t.launches
    requires forall k, n | Holds(t'.records, k, n) :: Holds(t.records, k, n)
    ensures Consistent(t')
  {
  }

  lemma GuardedKeeps(t: Tables, at: int)
    requires Consistent(t)
    ensures Consistent(t.(launches := Unexpired(t.launches, at)))
  {
    FewerLaunches(t, Unexpired(t.launches, at));
  }

  lemma RenameKeeps(t: Tables, key: Key, name: string, at: int)
    requires Consistent(t)
    ensures Consistent(Rename(t, key, name, at).tables)
  {
    GuardedKeeps(t, at);
    var t1 := t.(launches := Unexpired(t.launches, at));
    if key in t1.records && NewNameRefusal(t1, key, name).None? { SetNameKeeps(t1, key, name); }
  }

  lemma AdoptKeeps(t: Tables, key: Key, name: Option<string>, project: string, cwd: string, sandbox: bool, at: int)
    requires Consistent(t)
    ensures Consistent(Adopt(t, key, name, project, cwd, sandbox, at).tables)
  {
    GuardedKeeps(t, at);
    var t1 := t.(launches := Unexpired(t.launches, at));
    var s := Adopt(t, key, name, project, cwd, sandbox, at);
    if s.outcome == Done {
      if name.None? {
        assert forall k, n | Holds(s.tables.records, k, n) :: Holds(t1.records, k, n);
        StateChangeKeeps(t1, s.tables);
      } else {
        SetNameKeeps(t1, key, name.value);
        var t2 := SetName(t1, key, name);
        assert forall k, n | Holds(s.tables.records, k, n) :: Holds(t2.records, k, n);
        StateChangeKeeps(t2, s.tables);
      }
    }
  }

  lemma DestroyKeeps(t: Tables, key: Key, at: int)
    requires Consistent(t)
    ensures Consistent(Destroy(t, key, at).tables)
  {
    GuardedKeeps(t, at);
    var t1 := t.(launches := Unexpired(t.launches, at));
    var s := Destroy(t, key, at);
    if s.outcome == Done { StateChangeKeeps(t1, s.tables); }
  }

  lemma StepKeeps(t: Tables, op: Op)
    requires Consistent(t) && Admissible(t, op)
    ensures Consistent(Apply(t, op))
  {
    hide Consistent, Admissible, Reserve, Bind, Rename, Adopt, Destroy, TakeName, Unnamed;
    match op
    case OpReserve(r, at, later) => ReserveKeeps(t, r, at, later);
    case OpBind(h, at, writes) => BindKeeps(t, h, at, writes);
    case OpCancel(token, body, stopped) => FewerLaunches(t, t.launches - {token});
    case OpRevoke(body) => FewerLaunches(t, WithoutUnclaimed(t.launches, body));
    case OpExpire(at) => GuardedKeeps(t, at);
    case OpTouch(key, at) => StateChangeKeeps(t, Apply(t, op));
    case OpDescribe(key, project, cwd, at) => StateChangeKeeps(t, Apply(t, op));
    case OpMarkStopped(key, body, lost, at) => StateChangeKeeps(t, Apply(t, op));
    case OpRename(key, name, at) => RenameKeeps(t, key, name, at);
    case OpAdopt(key, name, project, cwd, sandbox, at) => AdoptKeeps(t, key, name, project, cwd, sandbox, at);
    case OpDestroy(key, at) => DestroyKeeps(t, key, at);
    case OpYieldName(keys) => UnnamedKeeps(t, keys);
    case OpTakeName(key, name, ownLane) => TakeNameKeeps(t, key, name, ownLane);
    case OpCreateLane(_, _, _, _, _) => StateChangeKeeps(t, Apply(t, op));
    case OpTransition(_, _, _) => StateChangeKeeps(t, Apply(t, op));
    case OpForeground(_, _, _, _) => StateChangeKeeps(t, Apply(t, op));
  }

  // ---- what a single step cannot undo ----

  lemma BindSparesTombstones(t: Tables, h: Hook, at: int, writes: nat, key: Key)
    requires key in t.records && t.records[key].state == Tombstoned
    ensures key in Bind(t, h, at, writes).tables.records
            && Bind(t, h, at, writes).tables.records[key].state == Tombstoned
  {
    if h.key == key {
      assert !AlreadyRuns(t, h);
      assert CapabilityRefusal(t, h, at).Some?;
    }
  }

  /** A tombstone stays one, with its name and everything else it says. */
  lemma TombstonesStay(t: Tables, op: Op, key: Key)
    requires key in t.records && t.records[key].state == Tombstoned
    requires Admissible(t, op)
    ensures key in Apply(t, op).records && Apply(t, op).records[key].state == Tombstoned
  {
    hide Bind;
    if op.OpBind? { BindSparesTombstones(t, op.hook, op.at, op.writes, key); }
  }

  lemma BindSparesClaims(t: Tables, h: Hook, at: int, writes: nat, token: Token)
    requires token in t.launches && t.launches[token].claim.Claimed?
    requires token in Bind(t, h, at, writes).tables.launches
    ensures Bind(t, h, at, writes).tables.launches[token] == t.launches[token]
  {
    if h.token == token && !AlreadyRuns(t, h) && CapabilityRefusal(t, h, at).None? {
      assert t.launches[token].claim.claimant == h.key;
    }
  }

  lemma ReserveSparesClaims(t: Tables, r: Request, at: int, later: int, token: Token)
    requires token in t.launches && token in Reserve(t, r, at, later).tables.launches && r.token != token
    ensures Reserve(t, r, at, later).tables.launches[token] == t.launches[token]
  {}

  /** As long as a claimed launch is in the table and its token is not issued again, it keeps its claimant. */
  lemma ClaimantStays(t: Tables, op: Op, token: Token)
    requires token in t.launches && t.launches[token].claim.Claimed?
    requires token in Apply(t, op).launches
    requires op.OpReserve? ==> op.request.token != token
    ensures Apply(t, op).launches[token] == t.launches[token]
  {
    hide Bind, Reserve;
    if op.OpBind? {
      BindSparesClaims(t, op.hook, op.at, op.writes, token);
    } else if op.OpReserve? {
      ReserveSparesClaims(t, op.request, op.at, op.later, token);
    }
  }

  // ---- whole runs ----

  ghost predicate Taken(states: seq<Tables>, ops: seq<Op>, i: nat)
    requires i < |ops| < |states|
  {
    Admissible(states[i], ops[i]) && states[i + 1] == Apply(states[i], ops[i])
  }

  ghost predicate IsRun(states: seq<Tables>, ops: seq<Op>) {
    && |states| == |ops| + 1
    && Consistent(states[0])
    && forall i | 0 <= i < |ops| :: Taken(states, ops, i)
  }

  lemma {:induction false} EveryStateConsistent(states: seq<Tables>, ops: seq<Op>, i: nat)
    requires IsRun(states, ops) && i < |states|
    ensures Consistent(states[i])
  {
    if i > 0 {
      EveryStateConsistent(states, ops, i - 1);
      assert Taken(states, ops, i - 1);
      StepKeeps(states[i - 1], ops[i - 1]);
    }
  }

  lemma {:induction false} TombstonesForever(states: seq<Tables>, ops: seq<Op>, i: nat, j: nat, key: Key)
    requires IsRun(states, ops) && i <= j < |states|
    requires key in states[i].records && states[i].records[key].state == Tombstoned
    ensures key in states[j].records && states[j].records[key].state == Tombstoned
  {
    if i < j {
      TombstonesForever(states, ops, i, j - 1, key);
      assert Taken(states, ops, j - 1);
      TombstonesStay(states[j - 1], ops[j - 1], key);
    }
  }

  /** The empty store is where a run may start. */
  lemma EmptyStoreConsistent()
    ensures Consistent(Tables(map[], map[], map[]))
  {
  }
}

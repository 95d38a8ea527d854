/**
 How the operations of the store act on each other: what one undoes, what one rules out for the others, and which of
 two that compete goes through.
 */
module SessionEffects {
  import opened Wrappers
  import opened SessionTables
  import opened SessionInvariants

  // ---- capabilities ----

  /** What a reservation drops before it adds its own capability. */
  function Remaining(t: Tables, r: Request, at: int, later: int): map<Token, Launch> {
    var unexpired := Unexpired(t.launches, at);
    var open := if r.newBody then unexpired else WithoutUnclaimed(unexpired, r.bodyId);
    if r.operation.Resume? then Unexpired(open, later) else open
  }

  /** Cancelling takes back what a reservation gave; what the reservation dropped on the way stays dropped. */
  lemma CancelUndoesReserve(t: Tables, r: Request, at: int, later: int, bodyStopped: bool)
    requires Reserve(t, r, at, later).outcome == Done
    ensures Cancel(Reserve(t, r, at, later).tables, r.token, r.bodyId, bodyStopped)
         == Step(t.(launches := Remaining(t, r, at, later)), Done)
  {
    var t' := Reserve(t, r, at, later).tables;
    assert t'.launches == Remaining(t, r, at, later)[r.token := ReservedLaunch(r, at)];
    assert t'.launches - {r.token} == Remaining(t, r, at, later);
  }

  /** The clock reading by which an operation drops expired capabilities. */
  function DropsBy(op: Op): Option<int> {
    match op
    case OpReserve(_, at, later) => Some(if at <= later then later else at)
    case OpExpire(at) => Some(at)
    case OpRename(_, _, at) => Some(at)
    case OpAdopt(_, _, _, _, _, at) => Some(at)
    case OpDestroy(_, at) => Some(at)
    case _ => None
  }

  lemma BindSparesClaim(t: Tables, h: Hook, at: int, writes: nat, token: Token)
    requires token in t.launches && t.launches[token].claim.Claimed? && token !in Bind(t, h, at, writes).tables.launches
    ensures h.token == token && (h.key == t.launches[token].claim.claimant || t.launches[token].expiresAt < at)
  {}

  lemma ReserveSparesClaim(t: Tables, r: Request, at: int, later: int, token: Token)
    requires token in t.launches && t.launches[token].claim.Claimed?
             && token !in Reserve(t, r, at, later).tables.launches
    ensures t.launches[token].expiresAt < at || t.launches[token].expiresAt < later
  {}

  /**
   A capability that a conversation has claimed goes only when that conversation's own hook is done with it, when its
   body has stopped, or when it expires: nothing revokes it, and no controller takes it back from a live body.
   */
  lemma ClaimedGoesOnly(t: Tables, op: Op, token: Token)
    requires token in t.launches && t.launches[token].claim.Claimed? && token !in Apply(t, op).launches
    ensures (op.OpBind? && op.hook.token == token
             && (op.hook.key == t.launches[token].claim.claimant || t.launches[token].expiresAt < op.at))
            || (op.OpCancel? && op.token == token && op.bodyStopped)
            || (DropsBy(op).Some? && t.launches[token].expiresAt < DropsBy(op).value)
  {
    hide Bind, Reserve;
    if op.OpBind? { BindSparesClaim(t, op.hook, op.at, op.writes, token); }
    if op.OpReserve? { ReserveSparesClaim(t, op.request, op.at, op.later, token); }
  }

  // ---- competing writers ----

  /** The hook and the dispatch may publish in either order: identity and process group are both there afterwards. */
  lemma NoteAndBindCommute(t: Tables, b: BodyId, key: Key, group: int, at: int, later: int)
    requires b in t.lanes && CanFinalize(t.lanes, b, key) && group > 1
    ensures var g := t.lanes[b].generation;
            var bound := t.(lanes := Finalized(t.lanes, b, key, at));
            var noted := RecordForeground(t, b, g, group, later).tables;
            && RecordForeground(bound, b, g, group, later).outcome == Done && CanFinalize(noted.lanes, b, key)
            && var one, other := RecordForeground(bound, b, g, group, later).tables, Finalized(noted.lanes, b, key, at);
               b in one.lanes && b in other
               && one.lanes[b] == other[b].(updatedAt := later)
               && one.lanes[b].bound == Some(key) && one.lanes[b].foreground == Some(group)
  {
  }

  // ---- names ----

  /** After a rename nobody else holds the name, and no capability has it reserved; a refused one changes no record. */
  lemma RenamedIsOnlyHolder(t: Tables, key: Key, name: string, at: int)
    ensures var s := Rename(t, key, name, at);
            if s.outcome == Done then
              && (forall k :: Holds(s.tables.records, k, name) <==> k == key)
              && !LaunchNamed(s.tables.launches, name)
              && (forall k | k in t.records && k != key :: k in s.tables.records && s.tables.records[k] == t.records[k])
            else s.tables.records == t.records
  {
    var s := Rename(t, key, name, at);
    if s.outcome == Done {
      forall k | Holds(s.tables.records, k, name) ensures k == key {
        if k != key { assert Holds(t.records, k, name); }
      }
    }
  }

  // ---- adoption ----

  /**
   A claimed resume is claimed by its target, and a conversation that bears the name of its claimed launch is managed.
   */
  ghost predicate OwnClaims(t: Tables) {
    forall token | token in t.launches && t.launches[token].claim.Claimed? ::
      var launch := t.launches[token];
      match launch.operation
      case Resume(target) => target == launch.claim.claimant
      case New =>
        launch.name.Some? && Holds(t.records, launch.claim.claimant, launch.name.value) ==>
        t.records[launch.claim.claimant].managed
  }

  lemma ClaimsStayIf(t: Tables, t': Tables)
    requires OwnClaims(t)
    requires forall token | token in t'.launches && t'.launches[token].claim.Claimed? ::
               token in t.launches && t'.launches[token] == t.launches[token]
    requires forall k, n | LaunchNamed(t'.launches, n) && Holds(t'.records, k, n) ::
               Holds(t.records, k, n) && (t.records[k].managed ==> t'.records[k].managed)
    ensures OwnClaims(t')
  {
    forall token | token in t'.launches && t'.launches[token].claim.Claimed? && t'.launches[token].operation.New?
        && t'.launches[token].name.Some?
           && Holds(t'.records, t'.launches[token].claim.claimant, t'.launches[token].name.value)
      ensures t'.records[t'.launches[token].claim.claimant].managed
    {
      assert LaunchNamed(t'.launches, t'.launches[token].name.value);
    }
  }

  lemma ReservedOrKept(t: Tables, r: Request, at: int, later: int)
    ensures var t' := Reserve(t, r, at, later).tables;
            t'.records == t.records
            && forall token | token in t'.launches ::
                 (token in t.launches && t'.launches[token] == t.launches[token])
                   || t'.launches[token] == ReservedLaunch(r, at)
  {}

  lemma ReserveKeepsClaims(t: Tables, r: Request, at: int, later: int)
    requires OwnClaims(t)
    ensures OwnClaims(Reserve(t, r, at, later).tables)
  {
    hide Reserve, OwnClaims;
    ReservedOrKept(t, r, at, later);
    ClaimsStayIf(t, Reserve(t, r, at, later).tables);
  }

  lemma ClaimKeepsClaims(t: Tables, h: Hook, at: int)
    requires OwnClaims(t) && CapabilityRefusal(t, h, at).None?
    ensures OwnClaims(ClaimFor(t, h)) && OwnClaims(WithRecord(ClaimFor(t, h), h, at))
  {
    var t1 := ClaimFor(t, h);
    var t2 := WithRecord(t1, h, at);
    forall token | token in t2.launches && t2.launches[token].claim.Claimed? && t2.launches[token].operation.New?
        && t2.launches[token].name.Some?
           && Holds(t2.records, t2.launches[token].claim.claimant, t2.launches[token].name.value)
      ensures t2.records[t2.launches[token].claim.claimant].managed
    {
      if token != h.token { assert t2.launches[token] == t.launches[token]; }
    }
  }

  lemma BindKeepsClaims(t: Tables, h: Hook, at: int, writes: nat)
    requires OwnClaims(t)
    ensures OwnClaims(Bind(t, h, at, writes).tables)
  {
    if !AlreadyRuns(t, h) && CapabilityRefusal(t, h, at).None? {
      ClaimKeepsClaims(t, h, at);
      var t2 := WithRecord(ClaimFor(t, h), h, at);
      if writes >= 2 { ClaimsStayIf(t2, FinishBind(t2, h, at, writes - 2, true).tables); }
    } else {
      ClaimsStayIf(t, Bind(t, h, at, writes).tables);
    }
  }

  lemma TakeNameKeepsClaims(t: Tables, op: Op)
    requires OwnClaims(t) && Admissible(t, op) && op.OpTakeName?
    ensures OwnClaims(Apply(t, op))
  {
    var t' := Apply(t, op);
    forall n | LaunchNamed(t'.launches, n) ensures n in HeldNames(t, op.key) {
      var token :| token in t'.launches && t'.launches[token].name == Some(n);
      assert t.launches[token].name.value == n;
    }
    ClaimsStayIf(t, t');
  }

  lemma RenameKeepsClaims(t: Tables, op: Op)
    requires OwnClaims(t) && (op.OpRename? || op.OpAdopt?)
    ensures OwnClaims(Apply(t, op))
  {
    ClaimsStayIf(t, Apply(t, op));
  }

  lemma StepKeepsClaims(t: Tables, op: Op)
    requires OwnClaims(t) && Admissible(t, op)
    ensures OwnClaims(Apply(t, op))
  {
    hide Reserve, Bind, Rename, Adopt, TakeName;
    if op.OpReserve? {
      ReserveKeepsClaims(t, op.request, op.at, op.later);
    } else if op.OpBind? {
      BindKeepsClaims(t, op.hook, op.at, op.writes);
    } else if op.OpTakeName? {
      TakeNameKeepsClaims(t, op);
    } else if op.OpRename? || op.OpAdopt? {
      RenameKeepsClaims(t, op);
    } else {
      ClaimsStayIf(t, Apply(t, op));
    }
  }

  lemma {:induction false} ClaimsAreOwn(states: seq<Tables>, ops: seq<Op>, i: nat)
    requires IsRun(states, ops) && OwnClaims(states[0]) && i < |states|
    ensures OwnClaims(states[i])
  {
    if i > 0 {
      ClaimsAreOwn(states, ops, i - 1);
      assert Taken(states, ops, i - 1);
      StepKeepsClaims(states[i - 1], ops[i - 1]);
    }
  }

  /** The name of a conversation that is not managed is reserved for nothing but a resume of it. */
  lemma NotReservedUnmanaged(t: Tables, key: Key, own: string, token: Token)
    requires Consistent(t) && OwnClaims(t) && Holds(t.records, key, own) && !t.records[key].managed
             && token in t.launches
    ensures t.launches[token].name == Some(own) ==> t.launches[token].operation == Resume(key)
  {
    if t.launches[token].name == Some(own) { assert MayHold(t.launches[token], key); }
  }

  lemma NameIsFreeForResume(t: Tables, key: Key, name: Option<string>, project: string, cwd: string, sandbox: bool,
                            at: int, own: string)
    requires Consistent(t) && OwnClaims(t) && Adopt(t, key, name, project, cwd, sandbox, at).outcome == Done
    requires Adopt(t, key, name, project, cwd, sandbox, at).tables.records[key].name == Some(own)
    ensures var t' := Adopt(t, key, name, project, cwd, sandbox, at).tables;
            !RecordNamed(t'.records, own, Some(key)) && !LaunchNamed(t'.launches, own)
  {
    var t' := Adopt(t, key, name, project, cwd, sandbox, at).tables;
    AdoptKeeps(t, key, name, project, cwd, sandbox, at);
    assert Holds(t'.records, key, own);
    if name.None? {
      assert Holds(t.records, key, own) && !t.records[key].managed;
      forall token | token in t'.launches ensures t'.launches[token].name != Some(own) {
        NotReservedUnmanaged(t, key, own, token);
        assert t'.launches[token].operation != Resume(key);
      }
    }
  }

  /**
   Why a record is adopted: in every state of every run, a conversation that was adopted can then be resumed, under the
   name it got or the one it had, unless that is no valid name.
   */
  lemma AdoptedCanBeResumed(states: seq<Tables>, ops: seq<Op>, i: nat, key: Key, name: Option<string>, project: string,
                            cwd: string, sandbox: bool, at: int, r: Request, now: int, later: int)
    requires IsRun(states, ops) && OwnClaims(states[0]) && i < |states|
    requires Adopt(states[i], key, name, project, cwd, sandbox, at).outcome == Done
    requires var t' := Adopt(states[i], key, name, project, cwd, sandbox, at).tables;
             r.name == t'.records[key].name && r.token !in t'.launches
    requires r.operation == Resume(key) && r.provider == key.provider && r.ttl > 0
    ensures Reserve(Adopt(states[i], key, name, project, cwd, sandbox, at).tables, r, now, later).outcome == Done
       <==> (r.name.Some? ==> ValidName(r.name.value))
  {
    var t := states[i];
    EveryStateConsistent(states, ops, i);
    ClaimsAreOwn(states, ops, i);
    var t' := Adopt(t, key, name, project, cwd, sandbox, at).tables;
    var left := Remaining(t', r, now, later);
    assert forall token | token in left :: token in t'.launches && left[token] == t'.launches[token];
    if r.name.Some? { NameIsFreeForResume(t, key, name, project, cwd, sandbox, at, r.name.value); }
    ReservesAdopted(t', r, now, later);
  }

  lemma ReservesAdopted(t: Tables, r: Request, now: int, later: int)
    requires r.operation.Resume? && r.provider == r.operation.target.provider && r.ttl > 0 && r.token !in t.launches
    requires ResumeRefusal(t.records, r.operation.target, r.name).None?
             && !ResumeTargets(t.launches, r.operation.target)
    requires r.name.Some? ==>
             !RecordNamed(t.records, r.name.value, Some(r.operation.target)) && !LaunchNamed(t.launches, r.name.value)
    ensures Reserve(t, r, now, later).outcome == Done <==> (r.name.Some? ==> ValidName(r.name.value))
  {
    var left := Remaining(t, r, now, later);
    assert forall token | token in left :: token in t.launches && left[token] == t.launches[token];
  }

  // ---- resumes and destroyed conversations ----

  /** Every resume that is pending is of a conversation on record that is not destroyed. */
  ghost predicate TargetsLive(t: Tables) {
    forall token | token in t.launches && t.launches[token].operation.Resume? ::
      var key := t.launches[token].operation.target; key in t.records && t.records[key].state != Tombstoned
  }

  lemma TargetsStayIf(t: Tables, t': Tables)
    requires TargetsLive(t)
    requires forall token | token in t'.launches && t'.launches[token].operation.Resume? ::
               token in t.launches && t'.launches[token].operation == t.launches[token].operation
    requires forall key | key in t.records && t.records[key].state != Tombstoned ::
               key in t'.records && t'.records[key].state != Tombstoned
    ensures TargetsLive(t')
  {}

  lemma ReserveKeepsTargets(t: Tables, r: Request, at: int, later: int)
    requires TargetsLive(t)
    ensures TargetsLive(Reserve(t, r, at, later).tables)
  {
    var t' := Reserve(t, r, at, later).tables;
    forall token | token in t'.launches && t'.launches[token].operation.Resume?
      ensures var key := t'.launches[token].operation.target; key in t'.records && t'.records[key].state != Tombstoned
    {
      if token == r.token && Reserve(t, r, at, later).outcome == Done {
        assert t'.launches[token] == ReservedLaunch(r, at);
      } else {
        assert token in t.launches && t'.launches[token] == t.launches[token];
      }
    }
  }

  lemma BindKeepsTargets(t: Tables, h: Hook, at: int, writes: nat)
    requires TargetsLive(t)
    ensures TargetsLive(Bind(t, h, at, writes).tables)
  {
    TargetsStayIf(t, Bind(t, h, at, writes).tables);
  }

  lemma DestroyKeepsTargets(t: Tables, key: Key, at: int)
    requires TargetsLive(t)
    ensures TargetsLive(Destroy(t, key, at).tables)
  {
    var s := Destroy(t, key, at);
    if s.outcome == Done {
      forall token | token in s.tables.launches && s.tables.launches[token].operation.Resume?
        ensures s.tables.launches[token].operation.target in s.tables.records
                && s.tables.records[s.tables.launches[token].operation.target].state != Tombstoned
      {
        assert token in t.launches;
        assert s.tables.launches[token].operation != Resume(key);
      }
    }
  }

  lemma StepKeepsTargets(t: Tables, op: Op)
    requires TargetsLive(t) && Admissible(t, op)
    ensures TargetsLive(Apply(t, op))
  {
    hide Reserve, Bind, Destroy, Rename, Adopt;
    if op.OpReserve? {
      ReserveKeepsTargets(t, op.request, op.at, op.later);
    } else if op.OpBind? {
      BindKeepsTargets(t, op.hook, op.at, op.writes);
    } else if op.OpDestroy? {
      DestroyKeepsTargets(t, op.key, op.at);
    } else if op.OpRename? || op.OpAdopt? {
      NamingKeepsTargets(t, op);
    } else {
      TargetsStayIf(t, Apply(t, op));
    }
  }

  lemma NamingKeepsTargets(t: Tables, op: Op)
    requires TargetsLive(t) && (op.OpRename? || op.OpAdopt?)
    ensures TargetsLive(Apply(t, op))
  {
    TargetsStayIf(t, Apply(t, op));
  }

  /**
   In every state of every run no capability is for a destroyed conversation: destroying waits until no resume is
   pending, and no resume is granted afterwards.
   */
  lemma {:induction false} DestroyedIsNeverResumed(states: seq<Tables>, ops: seq<Op>, i: nat, key: Key)
    requires IsRun(states, ops) && TargetsLive(states[0]) && i < |states|
    ensures TargetsLive(states[i])
    ensures key in states[i].records && states[i].records[key].state == Tombstoned ==>
            !ResumeTargets(states[i].launches, key)
  {
    if i > 0 {
      DestroyedIsNeverResumed(states, ops, i - 1, key);
      assert Taken(states, ops, i - 1);
      StepKeepsTargets(states[i - 1], ops[i - 1]);
    }
  }
}

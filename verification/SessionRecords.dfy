/**
 What each operation of the store needs to go through and what it then writes, field by field; and what a conversation's
 record says, over whole runs, of the launch that it last bound.
 */
module SessionRecords {
  import opened Wrappers
  import opened SessionTables
  import opened SessionInvariants

  // ---- conditions, spelled out ----

  /** A capability is good until its time is over. */
  predicate ResumePending(t: Tables, key: Key, at: int) {
    exists token | token in t.launches ::
        t.launches[token].operation == Resume(key) && at <= t.launches[token].expiresAt
  }

  /** A live conversation other than `key` bears the name, or a good capability reserves it. */
  predicate NameTaken(t: Tables, key: Option<Key>, name: string, at: int) {
    || (exists k | k in t.records ::
          t.records[k].state != Tombstoned && t.records[k].name == Some(name) && key != Some(k))
    || (exists token | token in t.launches :: t.launches[token].name == Some(name) && at <= t.launches[token].expiresAt)
  }

  /** Only the record of `key` differs. */
  predicate OnlyRecord(t: Tables, t': Tables, key: Key) {
    t'.lanes == t.lanes && t'.records.Keys == t.records.Keys + {key}
    && forall k | k in t.records && k != key :: t'.records[k] == t.records[k]
  }

  /** Exactly the capabilities that are good at this time are left. */
  predicate OnlyGood(t: Tables, t': Tables, at: int) {
    && (forall token | token in t'.launches :: token in t.launches && t'.launches[token] == t.launches[token])
    && (forall token | token in t.launches :: token in t'.launches <==> at <= t.launches[token].expiresAt)
  }

  lemma PendingIs(t: Tables, key: Key, at: int)
    ensures ResumeTargets(Unexpired(t.launches, at), key) <==> ResumePending(t, key, at)
  {
    var left := Unexpired(t.launches, at);
    forall token | token in t.launches ensures token in left <==> at <= t.launches[token].expiresAt {}
    if ResumePending(t, key, at) {
      var token :| token in t.launches && t.launches[token].operation == Resume(key)
          && at <= t.launches[token].expiresAt;
      assert token in left;
    }
  }

  lemma TakenIs(t: Tables, key: Key, name: string, at: int)
    ensures NewNameRefusal(t.(launches := Unexpired(t.launches, at)), key, name).Some? <==>
        NameTaken(t, Some(key), name, at)
  {
    var left := Unexpired(t.launches, at);
    if token :| token in t.launches && t.launches[token].name == Some(name) && at <= t.launches[token].expiresAt {
      assert token in left;
    }
  }

  // ---- records ----

  /** A stopped conversation that no pending resume is for is destroyed; it stays on record, with the time. */
  lemma Destroys(t: Tables, key: Key, at: int)
    ensures var s := Destroy(t, key, at);
            if key in t.records && t.records[key].state == Stopped && !ResumePending(t, key, at) then
              && s.outcome == Done && OnlyRecord(t, s.tables, key) && OnlyGood(t, s.tables, at)
              && s.tables.records[key] == t.records[key].(state := Tombstoned, destroyedAt := Some(at))
            else s.outcome != Done && s.tables.records == t.records && s.tables.lanes == t.lanes
  {
    PendingIs(t, key, at);
  }

  /** A live conversation gets a valid name that nobody else has, while no resume of it is pending. */
  lemma Renames(t: Tables, key: Key, name: string, at: int)
    ensures var s := Rename(t, key, name, at);
            if ValidName(name) && key in t.records && t.records[key].state != Tombstoned
               && !ResumePending(t, key, at) && !NameTaken(t, Some(key), name, at)
            then
              && s.outcome == Done && OnlyRecord(t, s.tables, key) && OnlyGood(t, s.tables, at)
              && s.tables.records[key] == t.records[key].(name := Some(name))
            else s.outcome != Done && s.tables.records == t.records && s.tables.lanes == t.lanes
  {
    PendingIs(t, key, at);
    TakenIs(t, key, name, at);
  }

  predicate MayAdopt(t: Tables, key: Key, name: Option<string>, at: int) {
    && (name.Some? ==> ValidName(name.value) && !NameTaken(t, Some(key), name.value, at))
    && key in t.records && t.records[key].state != Tombstoned && !t.records[key].managed && !ResumePending(t, key, at)
  }

  /** A conversation that nobody manages becomes a stopped managed one, with what is needed to resume it. */
  lemma Adopts(t: Tables, key: Key, name: Option<string>, project: string, cwd: string, sandbox: bool, at: int)
    ensures var s := Adopt(t, key, name, project, cwd, sandbox, at);
            if MayAdopt(t, key, name, at) then
              && s.outcome == Done && OnlyRecord(t, s.tables, key) && OnlyGood(t, s.tables, at)
              && s.tables.records[key]
                 == t.records[key].(managed := true, state := Stopped, project := Some(project), resumeCwd := Some(cwd),
                                    sandbox := sandbox, name := if name.Some? then name else t.records[key].name)
            else s.outcome != Done && s.tables.records == t.records && s.tables.lanes == t.lanes
  {
    if MayAdopt(t, key, name, at) { AdoptsIt(t, key, name, project, cwd, sandbox, at); }
    else { RefusesAdoption(t, key, name, project, cwd, sandbox, at); }
  }

  lemma AdoptsIt(t: Tables, key: Key, name: Option<string>, project: string, cwd: string, sandbox: bool, at: int)
    requires MayAdopt(t, key, name, at)
    ensures var s := Adopt(t, key, name, project, cwd, sandbox, at);
            && s.outcome == Done && OnlyRecord(t, s.tables, key) && OnlyGood(t, s.tables, at)
            && s.tables.records[key]
               == t.records[key].(managed := true, state := Stopped, project := Some(project), resumeCwd := Some(cwd),
                                  sandbox := sandbox, name := if name.Some? then name else t.records[key].name)
  {
    PendingIs(t, key, at);
    if name.Some? { TakenIs(t, key, name.value, at); }
  }

  lemma RefusesAdoption(t: Tables, key: Key, name: Option<string>, project: string, cwd: string, sandbox: bool, at: int)
    requires !MayAdopt(t, key, name, at)
    ensures var s := Adopt(t, key, name, project, cwd, sandbox, at);
            s.outcome != Done && s.tables.records == t.records && s.tables.lanes == t.lanes
  {
    PendingIs(t, key, at);
    if name.Some? { TakenIs(t, key, name.value, at); }
  }

  /** A running conversation is marked as stopped by its own body; any other report changes nothing. */
  lemma Stops(t: Tables, key: Key, body: Option<BodyId>, lost: bool, at: int)
    ensures var t' := MarkStopped(t, key, body, lost, at);
            if key in t.records && t.records[key].state == Running && t.records[key].bodyId == body then
              && OnlyRecord(t, t', key) && t'.launches == t.launches
              && t'.records[key] == t.records[key].(state := Stopped, stoppedAt := Some(at),
                                                    lostAt := if lost then Some(at) else t.records[key].lostAt)
            else t' == t
  {}

  /**
   A conversation's own report of where it runs leaves all but project and directory, and makes a bare record if need
   be.
   */
  lemma Describes(t: Tables, key: Key, project: string, cwd: string, at: int)
    ensures var t' := Describe(t, key, project, cwd, at);
            && OnlyRecord(t, t', key) && t'.launches == t.launches
            && t'.records[key].project == Some(project) && t'.records[key].resumeCwd == Some(cwd)
            && if key in t.records then
                 t'.records[key]
                 == t.records[key].(project := t'.records[key].project, resumeCwd := t'.records[key].resumeCwd)
               else
                 && t'.records[key].createdAt == at && !t'.records[key].managed && t'.records[key].state == Unset
                 && t'.records[key].name.None? && t'.records[key].bodyId.None? && !t'.records[key].sandbox
  {}

  lemma Touches(t: Tables, key: Key, at: int)
    ensures var t' := Touch(t, key, at);
            && OnlyRecord(t, t', key) && t'.launches == t.launches
            && (key in t.records ==> t' == t)
            && (key !in t.records ==>
                  && t'.records[key].createdAt == at && !t'.records[key].managed && t'.records[key].state == Unset
                  && t'.records[key].name.None? && t'.records[key].bodyId.None? && t'.records[key].project.None?)
  {}

  /**
   Taking a name: its holders lose it, the conversation has it, its lane is called by it, and nothing else changes.
   */
  lemma TakesName(t: Tables, key: Key, name: string, ownLane: Option<BodyId>)
    requires key in t.records && t.records[key].state != Tombstoned
    ensures var t' := TakeName(t, key, name, ownLane);
            && t'.launches == t.launches && t'.records.Keys == t.records.Keys && t'.lanes.Keys == t.lanes.Keys
            && t'.records[key] == t.records[key].(name := Some(name))
            && (forall k | k in t.records && k != key ::
                  t'.records[k]
                  == if t.records[k].state != Tombstoned && t.records[k].name == Some(name)
                     then t.records[k].(name := None)
                     else t.records[k])
            && (forall b | b in t.lanes ::
                  t'.lanes[b] == if ownLane == Some(b) then t.lanes[b].(name := Some(name)) else t.lanes[b])
  {}

  // ---- lanes ----

  /** A lane is made under a new body and a valid name that no live lane has; it waits to be opened, at generation 0. */
  lemma Creates(t: Tables, body: BodyId, name: Option<string>, project: string, cwd: string, at: int)
    ensures var s := CreateLane(t, body, name, project, cwd, at);
            if (name.Some? ==> ValidName(name.value)) && body !in t.lanes
               && (name.Some? ==> forall b | b in t.lanes && t.lanes[b].state != Destroyed :: t.lanes[b].name != name)
            then
              && s.outcome == Done && s.tables.records == t.records && s.tables.launches == t.launches
              && s.tables.lanes.Keys == t.lanes.Keys + {body}
              && (forall b | b in t.lanes :: s.tables.lanes[b] == t.lanes[b])
              && var lane := s.tables.lanes[body];
                 && lane.name == name && lane.project == project && lane.cwd == cwd && lane.updatedAt == at
                 && lane.state == Provisional && lane.generation == 0 && lane.bound.None? && lane.launchProvider.None?
                 && lane.foreground.None? && lane.lastBoundAt.None?
            else s.outcome != Done && s.tables == t
  {}

  /** A compare-and-swap goes through when the lane is in the state and generation that are expected. */
  lemma Swaps(t: Tables, body: BodyId, c: Change, at: int)
    ensures var s := Transition(t, body, c, at);
            if body in t.lanes && t.lanes[body].state == c.expected
               && (c.expectedGeneration == None || c.expectedGeneration == Some(t.lanes[body].generation))
               && (c.foreground.Some? ==> c.foreground.value > 1)
            then
              && s.outcome == Done && s.tables.records == t.records && s.tables.launches == t.launches
              && s.tables.lanes.Keys == t.lanes.Keys
              && (forall b | b in t.lanes && b != body :: s.tables.lanes[b] == t.lanes[b])
              && var before, after := t.lanes[body], s.tables.lanes[body];
                 && (after.name, after.project, after.cwd) == (before.name, before.project, before.cwd)
                 && after.state == c.target && after.bound == c.bound && after.launchProvider == c.launchProvider
                 && after.foreground == c.foreground && after.lastBoundAt == c.lastBoundAt && after.updatedAt == at
                 && after.generation - before.generation == if c.advance then 1 else 0
            else s.outcome != Done && s.tables == t
  {}

  /** A process group is noted for the generation that is running or starting; an identity bound meanwhile stays. */
  lemma Notes(t: Tables, body: BodyId, generation: nat, group: int, at: int)
    ensures var s := RecordForeground(t, body, generation, group, at);
            if group > 1 && body in t.lanes && t.lanes[body].generation == generation
               && t.lanes[body].state in {LaunchReserved, Relaunching, ProviderRunning}
            then
              && s.outcome == Done && s.tables.records == t.records && s.tables.launches == t.launches
              && s.tables.lanes.Keys == t.lanes.Keys
              && (forall b | b in t.lanes && b != body :: s.tables.lanes[b] == t.lanes[b])
              && s.tables.lanes[body]
                 == t.lanes[body].(state := ProviderRunning, foreground := Some(group), updatedAt := at)
            else s.outcome != Done && s.tables == t
  {}

  // ---- reserving ----

  /** What is still good when a reservation has dropped the expired capabilities and revoked its body's own. */
  predicate Survives(launch: Launch, r: Request, at: int) {
    at <= launch.expiresAt && (r.newBody || launch.bodyId != r.bodyId || launch.claim.Claimed?)
  }

  predicate Surviving(t: Tables, r: Request, at: int, later: int, token: Token) {
    && token in t.launches && Survives(t.launches[token], r, at)
    && (r.operation.Resume? ==> later <= t.launches[token].expiresAt)
  }

  /**
   A capability is granted for a valid request whose token is new, whose target stopped under the name asked for and is
   not being resumed, and whose name nobody else has.
   */
  ghost predicate MayReserve(t: Tables, r: Request, at: int, later: int) {
    && (r.name.Some? ==> ValidName(r.name.value)) && r.ttl > 0
    && !(r.token in t.launches && Survives(t.launches[r.token], r, at))
    && (match r.operation
        case New => true
        case Resume(key) =>
          && key.provider == r.provider && key in t.records && t.records[key].managed && t.records[key].state == Stopped
          && t.records[key].name == r.name
          && forall token | Surviving(t, r, at, later, token) :: t.launches[token].operation != r.operation)
    && (r.name.Some? ==>
          && (forall k | k in t.records && t.records[k].state != Tombstoned && t.records[k].name == r.name ::
                r.operation == Resume(k))
          && forall token | Surviving(t, r, at, later, token) :: t.launches[token].name != r.name)
  }

  lemma ReservesNew(t: Tables, r: Request, at: int, later: int)
    requires r.operation.New?
    ensures Reserve(t, r, at, later).outcome == Done <==> MayReserve(t, r, at, later)
    ensures MayReserve(t, r, at, later) ==>
              forall token | token in t.launches && token != r.token ::
                token in Reserve(t, r, at, later).tables.launches <==> Surviving(t, r, at, later, token)
  {
    var open := if r.newBody then Unexpired(t.launches, at) else WithoutUnclaimed(Unexpired(t.launches, at), r.bodyId);
    assert forall token :: token in open <==> Surviving(t, r, at, later, token);
    assert forall token | token in open :: open[token] == t.launches[token];
  }

  lemma ReservesResume(t: Tables, r: Request, at: int, later: int)
    requires r.operation.Resume?
    ensures Reserve(t, r, at, later).outcome == Done <==> MayReserve(t, r, at, later)
    ensures MayReserve(t, r, at, later) ==>
              forall token | token in t.launches && token != r.token ::
                token in Reserve(t, r, at, later).tables.launches <==> Surviving(t, r, at, later, token)
  {
    var open := if r.newBody then Unexpired(t.launches, at) else WithoutUnclaimed(Unexpired(t.launches, at), r.bodyId);
    var left := Unexpired(open, later);
    assert forall token :: token in open <==> token in t.launches && Survives(t.launches[token], r, at);
    assert forall token :: token in left <==> Surviving(t, r, at, later, token);
    assert forall token | token in open :: open[token] == t.launches[token];
    assert forall token | token in left :: left[token] == t.launches[token];
  }

  lemma ReserveWrites(t: Tables, r: Request, at: int, later: int)
    requires Reserve(t, r, at, later).outcome == Done
    ensures var t' := Reserve(t, r, at, later).tables;
            && t'.records == t.records && t'.lanes == t.lanes && r.token in t'.launches
            && (forall token | token in t'.launches && token != r.token ::
                  token in t.launches && t'.launches[token] == t.launches[token])
            && var launch := t'.launches[r.token];
               && launch.provider == r.provider && launch.name == r.name && launch.bodyId == r.bodyId
               && launch.project == r.project && launch.cwd == r.cwd && launch.sandbox == r.sandbox
               && launch.operation == r.operation && launch.expiresAt - at == r.ttl && launch.claim == Reserved
  {}

  /** Exactly when a capability is granted, what it says, and what is dropped for it. */
  lemma Reserves(t: Tables, r: Request, at: int, later: int)
    ensures var s := Reserve(t, r, at, later);
            && (s.outcome == Done <==> MayReserve(t, r, at, later))
            && s.tables.records == t.records && s.tables.lanes == t.lanes
            && (s.outcome == Done ==>
                  && s.tables.launches.Keys
                     == {r.token} + (set token | token in t.launches && Surviving(t, r, at, later, token))
                  && var launch := s.tables.launches[r.token];
                     && launch.provider == r.provider && launch.name == r.name && launch.bodyId == r.bodyId
                     && launch.project == r.project && launch.cwd == r.cwd && launch.sandbox == r.sandbox
                     && launch.operation == r.operation && launch.expiresAt - at == r.ttl && launch.claim == Reserved)
  {
    hide Reserve, MayReserve, Surviving;
    ReserveSpares(t, r, at, later);
    if r.operation.New? { ReservesNew(t, r, at, later); } else { ReservesResume(t, r, at, later); }
    if Reserve(t, r, at, later).outcome == Done { ReserveWrites(t, r, at, later); }
  }

  lemma ReserveSpares(t: Tables, r: Request, at: int, later: int)
    ensures Reserve(t, r, at, later).tables.records == t.records && Reserve(t, r, at, later).tables.lanes == t.lanes
  {}

  /** A capability is cancelled for its own body, once that body has stopped if a conversation has claimed it. */
  lemma Cancels(t: Tables, token: Token, body: BodyId, bodyStopped: bool)
    ensures var s := Cancel(t, token, body, bodyStopped);
            if token in t.launches && t.launches[token].bodyId == body
                && (t.launches[token].claim == Reserved || bodyStopped)
            then
              && s.outcome == Done && s.tables.records == t.records && s.tables.lanes == t.lanes
              && s.tables.launches.Keys == t.launches.Keys - {token}
              && forall other | other in s.tables.launches :: s.tables.launches[other] == t.launches[other]
            else s.outcome != Done && s.tables == t
  {}

  lemma Revokes(t: Tables, body: BodyId)
    ensures var t' := Revoke(t, body);
            && t'.records == t.records && t'.lanes == t.lanes
            && (forall token | token in t'.launches :: token in t.launches && t'.launches[token] == t.launches[token])
            && forall token | token in t.launches ::
                 token !in t'.launches <==> t.launches[token].bodyId == body && t.launches[token].claim == Reserved
  {}

  // ---- binding ----

  /** The conversation is on record as running in this body, for this project. */
  predicate RunsHere(t: Tables, h: Hook) {
    && h.key in t.records && t.records[h.key].managed && t.records[h.key].state == Running
    && t.records[h.key].bodyId == Some(h.bodyId) && t.records[h.key].project == Some(h.project)
  }

  /**
   The capability admits the conversation: it is good, open or claimed by it, and new or the resume of it as it stopped.
   */
  predicate Admits(t: Tables, launch: Launch, h: Hook, at: int) {
    && launch.expiresAt >= at
    && launch.provider == h.key.provider && launch.bodyId == h.bodyId && launch.project == h.project
    && (launch.claim == Reserved || launch.claim == Claimed(h.key))
    && match launch.operation
       case New => h.key !in t.records
       case Resume(target) =>
         target == h.key && h.key in t.records && t.records[h.key].managed && t.records[h.key].state == Stopped
         && t.records[h.key].name == launch.name
  }

  /** The bind of a launch that gets as far as its record. */
  predicate Binds(t: Tables, h: Hook, at: int, writes: nat) {
    !RunsHere(t, h) && h.token in t.launches && Admits(t, t.launches[h.token], h, at) && writes >= 2
  }

  /**
   What is put on record: the conversation runs in its body, where the launch has it run and in its sandbox or not,
   under the launch's name or the one it had; when it was stopped or destroyed before is forgotten, when it was first
   seen and last lost is kept.
   */
  lemma BindRecords(t: Tables, h: Hook, at: int, writes: nat)
    requires Binds(t, h, at, writes)
    ensures var t' := Bind(t, h, at, writes).tables;
            && h.key in t'.records && t'.records.Keys == t.records.Keys + {h.key}
            && (forall k | k in t.records && k != h.key :: t'.records[k] == t.records[k])
            && var launch, r, had := t.launches[h.token], t'.records[h.key], h.key in t.records;
               && r.managed && r.state == Running && r.bodyId == Some(h.bodyId) && r.project == Some(h.project)
               && r.resumeCwd == Some(launch.cwd) && r.sandbox == launch.sandbox
               && r.startedAt == Some(at) && r.stoppedAt.None? && r.destroyedAt.None?
               && r.name == (if launch.name.Some? || !had then launch.name else t.records[h.key].name)
               && r.createdAt == (if had then t.records[h.key].createdAt else at)
               && r.lostAt == (if had then t.records[h.key].lostAt else None)
  {}

  /** No other bind changes a record. */
  lemma OtherBindsRecordNothing(t: Tables, h: Hook, at: int, writes: nat)
    requires !Binds(t, h, at, writes)
    ensures Bind(t, h, at, writes).tables.records == t.records
  {}

  /** The lane that takes an identity: bindable, for this provider, and unbound or bound to this conversation. */
  predicate Takes(t: Tables, h: Hook) {
    && h.bodyId in t.lanes && t.lanes[h.bodyId].state in {LaunchReserved, Relaunching, ProviderRunning}
    && t.lanes[h.bodyId].launchProvider == Some(h.key.provider)
    && (t.lanes[h.bodyId].bound == None || t.lanes[h.bodyId].bound == Some(h.key))
  }

  /** What an uninterrupted first bind leaves: the identity in its lane, and no capability. */
  lemma BindFinishes(t: Tables, h: Hook, at: int)
    requires Binds(t, h, at, 4) && (h.bodyId in t.lanes ==> Takes(t, h))
    ensures var s := Bind(t, h, at, 4);
            && s.outcome == Done && s.tables.launches.Keys == t.launches.Keys - {h.token}
            && (forall token | token in s.tables.launches :: s.tables.launches[token] == t.launches[token])
            && s.tables.lanes.Keys == t.lanes.Keys
            && (forall b | b in t.lanes && b != h.bodyId :: s.tables.lanes[b] == t.lanes[b])
            && (h.bodyId in t.lanes ==>
                  s.tables.lanes[h.bodyId] == t.lanes[h.bodyId].(state := ProviderRunning, bound := Some(h.key),
                                                                 lastBoundAt := Some(at), updatedAt := at))
  {}

  /**
   The hook of a conversation that this body runs already, in full: while its capability is still claimed by it, it
   gives the lane its identity and drops the capability; when the capability is gone, it gives the lane its identity
   unless the lane has it; and otherwise it does nothing. A lane that does not take the identity refuses it.
   */
  lemma BindsAgain(t: Tables, h: Hook, at: int)
    requires RunsHere(t, h)
    ensures var s := Bind(t, h, at, 4);
            var mine := h.token in t.launches && t.launches[h.token].claim == Claimed(h.key);
            var lost := h.token !in t.launches && h.bodyId in t.lanes && t.lanes[h.bodyId].bound != Some(h.key);
            if !mine && !lost then s == Step(t, Done)
            else if h.bodyId in t.lanes && !Takes(t, h) then s.outcome != Done && s.tables == t
            else
              && s.outcome == Done && s.tables.records == t.records
              && s.tables.launches == (if mine then t.launches - {h.token} else t.launches)
              && s.tables.lanes
                 == if h.bodyId in t.lanes then
                      t.lanes[h.bodyId := t.lanes[h.bodyId].(state := ProviderRunning, bound := Some(h.key),
                                                             lastBoundAt := Some(at), updatedAt := at)]
                    else t.lanes
  {}

  /** A lane that does not take the identity refuses it and stays as it is; the capability stays, claimed. */
  lemma BindIsRefusedByLane(t: Tables, h: Hook, at: int, writes: nat)
    requires Binds(t, h, at, writes) && h.bodyId in t.lanes && !Takes(t, h)
    ensures var s := Bind(t, h, at, writes);
            && s.outcome != Done && s.tables.lanes == t.lanes && s.tables.launches.Keys == t.launches.Keys
            && s.tables.launches[h.token] == t.launches[h.token].(claim := Claimed(h.key))
  {}

  /** A hook that is neither known nor admitted changes nothing, but that its capability goes if it has expired. */
  lemma BindIsRefused(t: Tables, h: Hook, at: int, writes: nat)
    requires !RunsHere(t, h) && !(h.token in t.launches && Admits(t, t.launches[h.token], h, at))
    ensures var s := Bind(t, h, at, writes);
            && s.outcome != Done && s.tables.records == t.records && s.tables.lanes == t.lanes
            && (forall token | token in s.tables.launches ::
                  token in t.launches && s.tables.launches[token] == t.launches[token])
            && (forall token | token in t.launches ::
                  token !in s.tables.launches <==> token == h.token && t.launches[token].expiresAt < at)
  {}

  // ---- over runs ----

  predicate BindsAt(t: Tables, op: Op, key: Key) {
    op.OpBind? && op.hook.key == key && Binds(t, op.hook, op.at, op.writes)
  }

  lemma BindKeepsRecord(t: Tables, op: Op, key: Key)
    requires op.OpBind? && key in t.records && !BindsAt(t, op, key)
    ensures key in Apply(t, op).records && Apply(t, op).records[key] == t.records[key]
  {
    if Binds(t, op.hook, op.at, op.writes) {
      BindRecords(t, op.hook, op.at, op.writes);
    } else {
      OtherBindsRecordNothing(t, op.hook, op.at, op.writes);
    }
  }

  /** The conversation stays managed, in its body and sandbox, started when it was, and in its directory. */
  predicate SameLaunch(t: Tables, t': Tables, key: Key, directory: bool) {
    key in t.records && key in t'.records
    && var r, r' := t.records[key], t'.records[key];
       && r'.managed == r.managed && r'.sandbox == r.sandbox && r'.startedAt == r.startedAt && r'.bodyId == r.bodyId
       && (directory ==> r'.resumeCwd == r.resumeCwd)
  }

  predicate OfRecords(op: Op) {
    op.OpRename? || op.OpAdopt? || op.OpDestroy? || op.OpDescribe? || op.OpTouch? || op.OpMarkStopped?
  }

  lemma RecordsStayLaunched(t: Tables, op: Op, key: Key)
    requires key in t.records && t.records[key].managed && OfRecords(op)
    ensures SameLaunch(t, Apply(t, op), key, !(op.OpDescribe? && op.key == key))
  {
    hide Rename, Adopt, Destroy, Describe, Touch, MarkStopped;
    match op
    case OpRename(k, name, at) => Renames(t, k, name, at);
    case OpAdopt(k, name, project, cwd, sandbox, at) => Adopts(t, k, name, project, cwd, sandbox, at);
    case OpDestroy(k, at) => Destroys(t, k, at);
    case OpDescribe(k, project, cwd, at) => Describes(t, k, project, cwd, at);
    case OpTouch(k, at) => Touches(t, k, at);
    case OpMarkStopped(k, body, lost, at) => Stops(t, k, body, lost, at);
  }

  lemma LanesStayLaunched(t: Tables, op: Op, key: Key)
    requires key in t.records && !OfRecords(op) && !op.OpBind?
    ensures SameLaunch(t, Apply(t, op), key, true)
  {
    hide Reserve, CreateLane, Transition, RecordForeground, Cancel, Revoke;
    match op
    case OpReserve(r, at, later) => ReserveSpares(t, r, at, later);
    case OpCreateLane(body, name, project, cwd, at) => Creates(t, body, name, project, cwd, at);
    case OpTransition(body, change, at) => Swaps(t, body, change, at);
    case OpForeground(body, generation, group, at) => Notes(t, body, generation, group, at);
    case OpCancel(token, body, stopped) => Cancels(t, token, body, stopped);
    case OpRevoke(body) => Revokes(t, body);
    case _ =>
  }

  /** What only a bind changes of a managed conversation, and what only a bind or its own report does. */
  lemma StaysLaunched(t: Tables, op: Op, key: Key)
    requires key in t.records && t.records[key].managed && !BindsAt(t, op, key)
    ensures SameLaunch(t, Apply(t, op), key, !(op.OpDescribe? && op.key == key))
  {
    hide Apply;
    if op.OpBind? {
      BindKeepsRecord(t, op, key);
    } else if OfRecords(op) {
      RecordsStayLaunched(t, op, key);
    } else {
      LanesStayLaunched(t, op, key);
    }
  }

  /**
   Over a whole run, a conversation runs in the sandbox, or not, that the launch asked for which it last bound; its
   directory is that of the launch too, until the conversation itself reports another one.
   */
  lemma {:induction false} RecordOfLastBind(states: seq<Tables>, ops: seq<Op>, j: nat, i: nat, key: Key)
    requires IsRun(states, ops) && j < i < |states| && BindsAt(states[j], ops[j], key)
    requires forall l | j < l < i :: !BindsAt(states[l], ops[l], key)
    ensures ops[j].hook.token in states[j].launches && key in states[i].records && states[i].records[key].managed
    ensures var launch, r := states[j].launches[ops[j].hook.token], states[i].records[key];
            && r.sandbox == launch.sandbox && r.bodyId == Some(launch.bodyId) && r.startedAt == Some(ops[j].at)
            && ((forall l | j < l < i :: !(ops[l].OpDescribe? && ops[l].key == key)) ==>
                r.resumeCwd == Some(launch.cwd))
  {
    hide BindsAt, Apply;
    if i == j + 1 {
      assert Taken(states, ops, j);
      JustBound(states[j], ops[j], key);
    } else {
      RecordOfLastBind(states, ops, j, i - 1, key);
      assert Taken(states, ops, i - 1);
      var l := i - 1;
      StaysLaunched(states[l], ops[l], key);
    }
  }

  lemma JustBound(t: Tables, op: Op, key: Key)
    requires BindsAt(t, op, key)
    ensures op.OpBind? && op.hook.token in t.launches && key in Apply(t, op).records
    ensures var launch, r := t.launches[op.hook.token], Apply(t, op).records[key];
            && r.managed && r.sandbox == launch.sandbox && r.bodyId == Some(launch.bodyId) && r.startedAt == Some(op.at)
            && r.resumeCwd == Some(launch.cwd)
  {
    BindRecords(t, op.hook, op.at, op.writes);
  }
}

/**
 The session store as the program runs it: one object whose three tables are
 rewritten in place, under one lock, by the operations of module SessionTables.
 */
module SessionStore {
  import opened Wrappers
  import opened SessionTables

  class Store {
    var records: map<Key, Record>
    var lanes: map<BodyId, Lane>
    var launches: map<Token, Launch>

    ghost function Contents(): Tables
      reads this
    {
      Tables(records, lanes, launches)
    }

    constructor ()
      ensures Contents() == Tables(map[], map[], map[])
    {
      records, lanes, launches := map[], map[], map[];
    }

    method RemoveExpired(at: int)
      modifies this`launches
      ensures launches == Unexpired(old(launches), at)
    {
      var left := launches.Keys;
      while left != {}
        invariant left <= old(launches).Keys
        invariant launches == map token | token in old(launches)
                  && (token in left || old(launches)[token].expiresAt >= at) ::
                                old(launches)[token]
        decreases left
      {
        var token :| token in left;
        if launches[token].expiresAt < at { launches := launches - {token}; }
        left := left - {token};
      }
    }

    method RevokeUnclaimed(body: BodyId) returns (removed: nat)
      modifies this`launches
      ensures launches == WithoutUnclaimed(old(launches), body)
      ensures removed == |old(launches)| - |launches|
    {
      var left := launches.Keys;
      removed := 0;
      while left != {}
        invariant left <= old(launches).Keys
        invariant launches == map token | token in old(launches)
                  && (token in left || !Unclaimed(old(launches)[token], body)) ::
                                old(launches)[token]
        invariant removed + |launches| == |old(launches)|
        decreases left
      {
        var token :| token in left;
        assert token in launches;
        if Unclaimed(launches[token], body) {
          ghost var before := launches;
          launches := launches - {token};
          assert launches.Keys == before.Keys - {token};
          removed := removed + 1;
        }
        left := left - {token};
      }
    }

    method ReserveLaunch(r: Request, at: int, later: int) returns (outcome: Outcome)
      modifies this`launches
      ensures Step(Contents(), outcome) == Reserve(old(Contents()), r, at, later)
    {
      var invalid := InvalidRequest(r);
      if invalid.Some? { return Refused(invalid.value); }
      RemoveExpired(at);
      if !r.newBody { var _ := RevokeUnclaimed(r.bodyId); }
      if r.token in launches { return Refused(TokenTaken); }
      if r.operation.Resume? {
        var refusal := ResumeRefusal(records, r.operation.target, r.name);
        if refusal.Some? { return Refused(refusal.value); }
        RemoveExpired(later);
        if ResumeTargets(launches, r.operation.target) { return Refused(ResumeInProgress); }
      }
      if r.name.Some? {
        if RecordNamed(records, r.name.value, RequestTarget(r)) { return Refused(NameInUse); }
        if LaunchNamed(launches, r.name.value) { return Refused(NameReserved); }
      }
      launches := launches[r.token := ReservedLaunch(r, at)];
      return Done;
    }

    method CancelLaunch(token: Token, body: BodyId, bodyStopped: bool) returns (outcome: Outcome)
      modifies this`launches
      ensures Step(Contents(), outcome) == Cancel(old(Contents()), token, body, bodyStopped)
    {
      if token !in launches { return Refused(UnknownCapability); }
      if launches[token].bodyId != body { return Refused(BodyDisagrees); }
      if launches[token].claim != Reserved && !bodyStopped { return Refused(StillClaimed); }
      launches := launches - {token};
      return Done;
    }

    /** Publish the identity in its lane; a process may die before the write. */
    method FinalizeLane(body: BodyId, key: Key, at: int, dies: bool) returns (outcome: Outcome)
      modifies this`lanes
      ensures outcome == if CanFinalize(old(lanes), body, key) then Done else Refused(LaneCannotBind)
      ensures lanes == if outcome == Done && !dies then Finalized(old(lanes), body, key, at) else old(lanes)
    {
      if body in lanes {
        var lane := lanes[body];
        if !Bindable(lane.state) || lane.launchProvider != Some(key.provider) { return Refused(LaneCannotBind); }
        if lane.bound != None && lane.bound != Some(key) { return Refused(LaneCannotBind); }
        if !dies {
          lanes := lanes[body :=
            lane.(state := ProviderRunning, bound := Some(key), lastBoundAt := Some(at), updatedAt := at)];
        }
      }
      return Done;
    }

    method FinishBinding(h: Hook, at: int, writes: nat, consume: bool) returns (outcome: Outcome)
      modifies this`lanes, this`launches
      ensures Step(Contents(), outcome) == FinishBind(old(Contents()), h, at, writes, consume)
    {
      outcome := FinalizeLane(h.bodyId, h.key, at, writes == 0);
      if outcome == Done && writes >= 2 && consume {
        launches := launches - {h.token};
      }
    }

    /** Consume a capability for one native session; the process dies after `writes` durable writes. */
    method BindLaunch(h: Hook, at: int, writes: nat) returns (outcome: Outcome)
      modifies this
      ensures Step(Contents(), outcome) == Bind(old(Contents()), h, at, writes)
    {
      if h.key in records {
        var existing := records[h.key];
        if existing.managed && existing.state == Running && existing.bodyId == Some(h.bodyId)
          && existing.project == Some(h.project) {
          if h.token in launches {
            if launches[h.token].claim == Claimed(h.key) {
              outcome := FinishBinding(h, at, writes, true);
              return;
            }
          } else if h.bodyId in lanes && lanes[h.bodyId].bound != Some(h.key) {
            outcome := FinishBinding(h, at, writes, false);
            return;
          }
          return Done;
        }
      }
      if h.token !in launches { return Refused(UnknownCapability); }
      var launch := launches[h.token];
      if launch.expiresAt < at {
        launches := launches - {h.token};
        return Refused(CapabilityExpired);
      }
      if launch.provider != h.key.provider { return Refused(ProviderDisagrees); }
      if launch.bodyId != h.bodyId { return Refused(BodyDisagrees); }
      if launch.project != h.project { return Refused(ProjectDisagrees); }
      if launch.claim.Claimed? && launch.claim.claimant != h.key { return Refused(ClaimedElsewhere); }
      if launch.operation.Resume? && launch.operation.target != h.key { return Refused(WrongResume); }
      if launch.operation.New? && h.key in records { return Refused(CollidesWithRecord); }
      if launch.operation.Resume? {
        var refusal := ResumeRefusal(records, h.key, launch.name);
        if refusal.Some? { return Refused(refusal.value); }
      }
      if writes == 0 { return Done; }
      launches := launches[h.token := launch.(claim := Claimed(h.key))];
      if writes == 1 { return Done; }
      var base := if h.key in records then records[h.key] else BlankRecord(at);
      var started := base.(managed := true, state := Running, project := Some(h.project), resumeCwd := Some(launch.cwd),
        bodyId := Some(h.bodyId), sandbox := launch.sandbox, startedAt := Some(at), stoppedAt := None, destroyedAt :=
          None);
      if launch.name.Some? { started := started.(name := launch.name); }
      records := records[h.key := started];
      outcome := FinishBinding(h, at, writes - 2, true);
    }

    method MakeLane(body: BodyId, name: Option<string>, project: string, cwd: string, at: int)
      returns (outcome: Outcome)
      modifies this`lanes
      ensures Step(Contents(), outcome) == CreateLane(old(Contents()), body, name, project, cwd, at)
    {
      if name.Some? && !ValidName(name.value) { return Refused(BadName); }
      if body in lanes { return Refused(LaneInUse); }
      var left := lanes.Keys;
      while left != {}
        invariant left <= lanes.Keys
        invariant forall other | other in lanes && other !in left ::
                  !(lanes[other].state != Destroyed && name.Some? && lanes[other].name == name)
        decreases left
      {
        var other :| other in left;
        if lanes[other].state != Destroyed && name.Some? && lanes[other].name == name { return Refused(NameInUse); }
        left := left - {other};
      }
      lanes := lanes[body := Lane(name, project, cwd, Provisional, 0, None, None, None, None, at)];
      return Done;
    }

    method MoveLane(body: BodyId, c: Change, at: int) returns (outcome: Outcome)
      modifies this`lanes
      ensures Step(Contents(), outcome) == Transition(old(Contents()), body, c, at)
    {
      if body !in lanes { return Refused(LaneMissing); }
      var lane := lanes[body];
      if lane.state != c.expected { return Refused(LaneMoved); }
      if c.expectedGeneration.Some? && lane.generation != c.expectedGeneration.value { return Refused(LaneMoved); }
      if c.foreground.Some? && c.foreground.value <= 1 { return Refused(BadForeground); }
      lane := lane.(state := c.target, bound := c.bound, launchProvider := c.launchProvider, foreground := c.foreground,
        lastBoundAt := c.lastBoundAt, updatedAt := at);
      if c.advance { lane := lane.(generation := lane.generation + 1); }
      lanes := lanes[body := lane];
      return Done;
    }

    method NoteForeground(body: BodyId, generation: nat, group: int, at: int) returns (outcome: Outcome)
      modifies this`lanes
      ensures Step(Contents(), outcome) == SessionTables.RecordForeground(old(Contents()), body, generation, group, at)
    {
      if group <= 1 { return Refused(BadForeground); }
      if body !in lanes { return Refused(LaneMissing); }
      var lane := lanes[body];
      if lane.generation != generation || !Bindable(lane.state) { return Refused(LaneMoved); }
      lanes := lanes[body := lane.(state := ProviderRunning, foreground := Some(group), updatedAt := at)];
      return Done;
    }

    method RefuseActiveResume(key: Key, at: int) returns (outcome: Outcome)
      modifies this`launches
      ensures Step(Contents(), outcome) == ResumeGuard(old(Contents()), key, at)
    {
      RemoveExpired(at);
      return if ResumeTargets(launches, key) then Refused(ResumeInProgress) else Done;
    }

    method RenameRecord(key: Key, name: string, at: int) returns (outcome: Outcome)
      modifies this`records, this`launches
      ensures Step(Contents(), outcome) == Rename(old(Contents()), key, name, at)
    {
      if !ValidName(name) { return Refused(BadName); }
      if key !in records || records[key].state == Tombstoned { return Refused(RecordMissing); }
      outcome := RefuseActiveResume(key, at);
      if outcome != Done { return; }
      if RecordNamed(records, name, Some(key)) { return Refused(NameInUse); }
      if LaunchNamed(launches, name) { return Refused(NameReserved); }
      records := records[key := records[key].(name := Some(name))];
      return Done;
    }

    method AdoptRecord(key: Key, name: Option<string>, project: string, cwd: string, sandbox: bool, at: int)
      returns (outcome: Outcome)
      modifies this`records, this`launches
      ensures Step(Contents(), outcome) == Adopt(old(Contents()), key, name, project, cwd, sandbox, at)
    {
      if name.Some? && !ValidName(name.value) { return Refused(BadName); }
      if key !in records { return Refused(RecordMissing); }
      if records[key].state == Tombstoned { return Refused(RecordDestroyed); }
      if records[key].managed { return Refused(AlreadyManaged); }
      outcome := RefuseActiveResume(key, at);
      if outcome != Done { return; }
      if name.Some? {
        if RecordNamed(records, name.value, Some(key)) { return Refused(NameInUse); }
        if LaunchNamed(launches, name.value) { return Refused(NameReserved); }
      }
      var adopted :=
        records[key].(managed := true, state := Stopped, project := Some(project), resumeCwd := Some(cwd),
        sandbox := sandbox);
      if name.Some? { adopted := adopted.(name := name); }
      records := records[key := adopted];
      return Done;
    }

    method DestroyRecord(key: Key, at: int) returns (outcome: Outcome)
      modifies this`records, this`launches
      ensures Step(Contents(), outcome) == SessionTables.Destroy(old(Contents()), key, at)
    {
      if key !in records || records[key].state == Tombstoned { return Refused(RecordMissing); }
      if records[key].state != Stopped { return Refused(NotStopped); }
      outcome := RefuseActiveResume(key, at);
      if outcome != Done { return; }
      records := records[key := records[key].(state := Tombstoned, destroyedAt := Some(at))];
      return Done;
    }
  }
}

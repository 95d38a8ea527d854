/**
 A process that dies while it binds a native identity loses nothing: running
 the same hook again completes the bind.
 */
module BindRecovery {
  import opened Wrappers
  import opened SessionTables

  function TimelessRecord(r: Record): Record {
    r.(createdAt := 0, startedAt := None)
  }

  function TimelessLane(lane: Lane): Lane {
    lane.(lastBoundAt := None, updatedAt := 0)
  }

  /** Equal tables, except for the clock readings that a bind writes. */
  ghost predicate SameUpToTime(a: Tables, b: Tables) {
    && a.records.Keys == b.records.Keys
    && a.lanes.Keys == b.lanes.Keys
    && a.launches == b.launches
    && (forall key | key in a.records :: TimelessRecord(a.records[key]) == TimelessRecord(b.records[key]))
    && (forall body | body in a.lanes :: TimelessLane(a.lanes[body]) == TimelessLane(b.lanes[body]))
  }

  /** The hook presents a capability that the store honours, or repeats a bind it honoured. */
  predicate Honoured(t: Tables, h: Hook, at: int) {
    AlreadyRuns(t, h) || CapabilityRefusal(t, h, at).None?
  }

  lemma PublishedRuns(t: Tables, h: Hook, at: int)
    requires !AlreadyRuns(t, h) && CapabilityRefusal(t, h, at).None?
    ensures AlreadyRuns(WithRecord(ClaimFor(t, h), h, at), h)
    ensures ClaimFor(t, h).launches[h.token].claim == Claimed(h.key)
  {
  }

  /** After its record is published, the rest of a bind is what the hook does when it fires again. */
  lemma BindIsRebind(t: Tables, h: Hook, at: int, writes: nat)
    requires !AlreadyRuns(t, h) && CapabilityRefusal(t, h, at).None? && writes >= 2
    ensures Bind(t, h, at, writes) == Rebind(WithRecord(ClaimFor(t, h), h, at), h, at, writes - 2)
  {
    PublishedRuns(t, h, at);
  }

  lemma RebindFully(t: Tables, h: Hook, at: int)
    requires AlreadyRuns(t, h)
    ensures Bind(t, h, at, 4) == Rebind(t, h, at, 2)
  {
  }

  lemma StillRuns(t: Tables, h: Hook, at: int, writes: nat)
    requires AlreadyRuns(t, h)
    ensures AlreadyRuns(Rebind(t, h, at, writes).tables, h)
  {
  }

  /** A launch that is claimed, but whose record is not yet published, is honoured again. */
  lemma ClaimedStillHonoured(t: Tables, h: Hook, at1: int, at2: int)
    requires !AlreadyRuns(t, h) && CapabilityRefusal(t, h, at1).None?
    requires at2 <= t.launches[h.token].expiresAt
    ensures !AlreadyRuns(ClaimFor(t, h), h) && CapabilityRefusal(ClaimFor(t, h), h, at2).None?
    ensures ClaimFor(ClaimFor(t, h), h) == ClaimFor(t, h)
  {
  }

  /** Finishing two binds whose tables differ only in a record's clock readings. */
  lemma RebindEither(t: Tables, records: map<Key, Record>, h: Hook, at1: int, at2: int)
    requires h.token in t.launches && t.launches[h.token].claim == Claimed(h.key)
    requires records.Keys == t.records.Keys
             && forall key | key in records :: TimelessRecord(records[key]) == TimelessRecord(t.records[key])
    ensures var again := Rebind(t.(records := records), h, at2, 2);
            var once := Rebind(t, h, at1, 2);
            again.outcome == once.outcome && SameUpToTime(again.tables, once.tables)
            && (once.outcome == Done ==> h.token !in again.tables.launches)
  {}

  lemma HasLaunch(t: Tables, h: Hook, at: int)
    requires CapabilityRefusal(t, h, at).None?
    ensures h.token in t.launches
  {}

  /** Publishing the record at another time changes only clock readings, also in what follows. */
  lemma RebindLater(t: Tables, h: Hook, at1: int, at2: int)
    requires !AlreadyRuns(t, h) && CapabilityRefusal(t, h, at1).None?
    requires at2 <= t.launches[h.token].expiresAt
    ensures var again := Rebind(WithRecord(ClaimFor(t, h), h, at2), h, at2, 2);
            var once := Rebind(WithRecord(ClaimFor(t, h), h, at1), h, at1, 2);
            again.outcome == once.outcome && SameUpToTime(again.tables, once.tables)
            && (once.outcome == Done ==> h.token !in again.tables.launches)
  {
    HasLaunch(t, h, at1);
    hide CapabilityRefusal, AlreadyRuns, Rebind, SameUpToTime;
    var later := WithRecord(ClaimFor(t, h), h, at2);
    var first := WithRecord(ClaimFor(t, h), h, at1);
    assert later == first.(records := later.records);
    RebindEither(first, later.records, h, at1, at2);
  }

  /** Publishing the lane a second time changes only its clock readings. */
  lemma FinalizedAgain(lanes: map<BodyId, Lane>, body: BodyId, key: Key, at1: int, at2: int)
    requires CanFinalize(lanes, body, key)
    ensures CanFinalize(Finalized(lanes, body, key, at1), body, key)
    ensures Finalized(Finalized(lanes, body, key, at1), body, key, at2) == Finalized(lanes, body, key, at2)
    ensures body in lanes ==> Finalized(lanes, body, key, at1)[body].bound == Some(key)
  {
  }

  /** The hook of a claimed launch, stopped before its last write and repeated. */
  lemma FinishClaimedAgain(t: Tables, h: Hook, at1: int, at2: int, writes: nat)
    requires h.token in t.launches && t.launches[h.token].claim == Claimed(h.key)
    requires writes < 2
    ensures var again := Rebind(Rebind(t, h, at1, writes).tables, h, at2, 2);
            var once := Rebind(t, h, at1, 2);
            again.outcome == once.outcome && SameUpToTime(again.tables, once.tables)
            && (once.outcome == Done ==> h.token !in again.tables.launches)
  {
    if CanFinalize(t.lanes, h.bodyId, h.key) { FinalizedAgain(t.lanes, h.bodyId, h.key, at1, at2); }
  }

  /** Finishing twice, the second time from where the first one stopped, is finishing once. */
  lemma FinishAgain(t: Tables, h: Hook, at1: int, at2: int, writes: nat)
    ensures var again := Rebind(Rebind(t, h, at1, writes).tables, h, at2, 2);
            var once := Rebind(t, h, at1, 2);
            again.outcome == once.outcome && SameUpToTime(again.tables, once.tables)
            && (h.token in t.launches && t.launches[h.token].claim == Claimed(h.key) && once.outcome == Done
                ==> h.token !in again.tables.launches)
  {
    if h.token in t.launches && t.launches[h.token].claim == Claimed(h.key) && writes < 2 {
      FinishClaimedAgain(t, h, at1, at2, writes);
    } else if CanFinalize(t.lanes, h.bodyId, h.key) {
      FinalizedAgain(t.lanes, h.bodyId, h.key, at1, at2);
    }
  }

  /**
   Stop a bind after any number of durable writes, run the same hook again before the capability
   expires: the outcome and the three tables are those of the uninterrupted bind, and a bind that
   succeeds leaves no capability behind.
   */
  lemma BindSurvivesCrash(t: Tables, h: Hook, at1: int, at2: int, writes: nat)
    requires Honoured(t, h, at1)
    requires h.token in t.launches ==> at2 <= t.launches[h.token].expiresAt
    ensures var once := Bind(t, h, at1, 4);
            var again := Bind(Bind(t, h, at1, writes).tables, h, at2, 4);
            && again.outcome == once.outcome
            && SameUpToTime(again.tables, once.tables)
            && (!AlreadyRuns(t, h) && once.outcome == Done ==> h.token !in again.tables.launches)
  {
    if AlreadyRuns(t, h) {
      StillRuns(t, h, at1, writes);
      FinishAgain(t, h, at1, at2, writes);
      RebindFully(t, h, at1);
      RebindFully(Rebind(t, h, at1, writes).tables, h, at2);
    } else {
      PublishedRuns(t, h, at1);
      BindIsRebind(t, h, at1, 4);
      if writes == 0 {
        BindIsRebind(t, h, at2, 4);
        RebindLater(t, h, at1, at2);
      } else if writes == 1 {
        ClaimedStillHonoured(t, h, at1, at2);
        BindIsRebind(ClaimFor(t, h), h, at2, 4);
        RebindLater(t, h, at1, at2);
      } else {
        var t2 := WithRecord(ClaimFor(t, h), h, at1);
        BindIsRebind(t, h, at1, writes);
        StillRuns(t2, h, at1, writes - 2);
        FinishAgain(t2, h, at1, at2, writes - 2);
        RebindFully(Rebind(t2, h, at1, writes - 2).tables, h, at2);
      }
    }
  }

  /**
   A bind whose lane has moved on is refused only after its record was published: the conversation
   is left recorded as running, with its capability claimed, and repeating the hook changes nothing.
   */
  lemma RefusedBindStaysPublished(t: Tables, h: Hook, at: int)
    requires !AlreadyRuns(t, h) && CapabilityRefusal(t, h, at).None?
    ensures (Bind(t, h, at, 4).outcome == Done) <==> CanFinalize(t.lanes, h.bodyId, h.key)
    ensures !CanFinalize(t.lanes, h.bodyId, h.key) ==>
              var t' := Bind(t, h, at, 4).tables;
              AlreadyRuns(t', h) && h.token in t'.launches && t'.launches[h.token].claim == Claimed(h.key)
              && forall later, writes :: Bind(t', h, later, writes) == Step(t', Refused(LaneCannotBind))
  {
    PublishedRuns(t, h, at);
  }
}

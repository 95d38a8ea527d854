/**
 What a dispatch brings about, over whole runs: the provider that a lane is admitted for, and that the process launched
 for it is accepted.
 */
module LaneDispatch {
  import opened Wrappers
  import opened SessionTables
  import opened LaneProtocol
  import opened LaneSafety
  import opened LaneRuns
  import opened LaneTheorems
  import opened LaneCapabilities
  import Store = SessionInvariants

  // ---- what the steps that change a lane write ----

  /**
   An admission that goes through starts the next generation for the provider that was asked for, without anything of
   the generation before.
   */
  lemma AdmitWrites(ws: seq<World>, actions: seq<Action>, i: nat, b: BodyId)
    requires IsRun(ws, actions) && Swaps(ws, actions, i, b) && actions[i].e.Admit?
    ensures b in ws[i].bodies && actions[i].e.c in ws[i].bodies[b].controllers
    ensures var read := ws[i].bodies[b].controllers[actions[i].e.c].lane;
            var before, after := ws[i].tables.lanes[b], ws[i + 1].tables.lanes[b];
            && after.state == (if read.generation == 0 then LaunchReserved else Relaunching)
            && after.generation == before.generation + 1
            && after.launchProvider == Some(actions[i].e.provider) && after.updatedAt == actions[i].e.at
            && after.bound.None? && after.foreground.None? && after.lastBoundAt.None?
            && after.name == before.name && after.project == before.project && after.cwd == before.cwd
  {
    assert Taken(ws, actions, i);
    EveryWorld(ws, actions, i);
    assert Inv(ws[i].tables, b, ws[i].bodies[b]);
  }

  /**
   An admission goes through exactly when the lane is in the state that its controller read, in whatever generation.
   */
  lemma AdmitGoesThrough(t: Tables, b: BodyId, s: Body, e: Event)
    requires Enabled(t, b, s, e) && e.Admit?
    ensures e.c in s.controllers && b in After(t, b, s, e).tables.lanes
    ensures After(t, b, s, e).tables.lanes[b] != t.lanes[b] <==> t.lanes[b].state == s.controllers[e.c].lane.state
  {}

  /**
   What ends a generation goes through when the lane is in the state that was read, and for all but a dispatch that
   gives up and what opens or fails a new lane, in the generation that was read.
   */
  lemma ConclusionGoesThrough(t: Tables, b: BodyId, s: Body, e: Event)
    requires Enabled(t, b, s, e) && ChangesLane(e) && Inv(t, b, s)
    ensures e.c in s.controllers && b in After(t, b, s, e).tables.lanes
    ensures var read := s.controllers[e.c].lane;
            After(t, b, s, e).tables.lanes[b] != t.lanes[b]
            <==> t.lanes[b].state == read.state
                 && (e.Conclude? || e.DestroyLane? || e.LeaveRunning? ==> t.lanes[b].generation == read.generation)
  {
    hide After, Reserve, Bind, Cancel, Revoke, RecordForeground, Inv, BodyInv;
    ChangeOfIs(t, b, s, e);
    ChangeOfExpects(t, b, s, e);
  }

  /** Where a lane goes when its controller ends with this event. */
  predicate Concludes(e: Event, ran: bool, state: LaneState) {
    || (e.OpenShell? && state == ShellIdle)
    || (e.GiveUp? && state == ShellIdle)
    || (e.Conclude? && state == if ran then ProviderExited else ShellIdle)
    || (e.LeaveRunning? && state == ProviderExited)
    || ((e.FailCreation? || e.DestroyLane?) && state == Destroyed)
  }

  /**
   A controller that concludes a generation leaves the lane in the state it is there for, with nobody in front. An agent
   that ran leaves behind the conversation and the provider that its controller read; otherwise the lane is bare.
   */
  lemma ConclusionWrites(ws: seq<World>, actions: seq<Action>, i: nat, b: BodyId)
    requires IsRun(ws, actions) && Swaps(ws, actions, i, b) && ChangesLane(actions[i].e)
    ensures b in ws[i].bodies && actions[i].e.c in ws[i].bodies[b].controllers
    ensures var s, e := ws[i].bodies[b], actions[i].e;
            var ct := s.controllers[e.c];
            var before, after := ws[i].tables.lanes[b], ws[i + 1].tables.lanes[b];
            && Concludes(e, ct.phase == Reread(true), after.state)
            && after.generation == before.generation && after.foreground.None? && after.updatedAt == e.at
            && after.name == before.name && after.project == before.project && after.cwd == before.cwd
            && (after.bound, after.launchProvider, after.lastBoundAt)
               == if Exits(s, e) then (ct.lane.bound, ct.lane.launchProvider, ct.lane.lastBoundAt)
                  else (None, None, None)
  {
    EveryWorld(ws, actions, i);
    assert Taken(ws, actions, i);
    ConclusionStep(ws[i].tables, b, ws[i].bodies[b], actions[i].e);
  }

  lemma ConclusionStep(t: Tables, b: BodyId, s: Body, e: Event)
    requires Enabled(t, b, s, e) && ChangesLane(e)
    ensures e.c in s.controllers && b in After(t, b, s, e).tables.lanes
    ensures var ct := s.controllers[e.c];
            var before, after := t.lanes[b], After(t, b, s, e).tables.lanes[b];
            after != before ==>
              && Concludes(e, ct.phase == Reread(true), after.state)
              && after.generation == before.generation && after.foreground.None? && after.updatedAt == e.at
              && after.name == before.name && after.project == before.project && after.cwd == before.cwd
              && (after.bound, after.launchProvider, after.lastBoundAt)
                 == if Exits(s, e) then (ct.lane.bound, ct.lane.launchProvider, ct.lane.lastBoundAt)
                    else (None, None, None)
  {
    ChangeOfIs(t, b, s, e);
    hide After, Reserve, Bind, Cancel, Revoke, RecordForeground;
  }

  /** A dispatch whose launcher was typed, and a recovery of one. */
  predicate FollowsUp(p: Phase) {
    p.Typed? || p.Seen? || p.Recovering? || p.Missing? || p.Busy? || p.Finished? || p.Revoked? || p.Reread?
  }

  /**
   A launch is followed up: its controller is done, unless it dies, only when the agent is noted in the lane, when a job
   that may be the agent is in front, when the lane has moved on, or when the generation is concluded.
   */
  lemma LaunchIsFollowedUp(t: Tables, b: BodyId, s: Body, e: Event, c: Cid)
    requires Enabled(t, b, s, e) && c in s.controllers && FollowsUp(s.controllers[c].phase) && e != Crash(c)
    requires c !in After(t, b, s, e).body.controllers
    ensures var read, lane' := s.controllers[c].lane, After(t, b, s, e).tables.lanes;
            || (e.NoteForeground? && s.controllers[c].phase.Seen? && b in lane'
                && lane'[b].generation == read.generation
                && lane'[b].state == ProviderRunning && lane'[b].foreground == Some(s.controllers[c].phase.group))
            || (e.NoteBusy? && s.controllers[c].phase.Busy?)
            || (e.ReadAgain? && (t.lanes[b].generation != read.generation || !Bindable(t.lanes[b].state)))
            || e.Conclude?
  {
    OnlyTheseEnd(t, b, s, e, c);
    if e.NoteForeground? { NotedEnds(t, b, s, e); }
    hide After;
  }

  lemma OnlyTheseEnd(t: Tables, b: BodyId, s: Body, e: Event, c: Cid)
    requires Enabled(t, b, s, e) && c in s.controllers && FollowsUp(s.controllers[c].phase) && e != Crash(c)
    requires c !in After(t, b, s, e).body.controllers
    ensures (e.NoteForeground? && e.c == c) || (e.NoteBusy? && e.c == c) || (e.Conclude? && e.c == c)
            || (e.ReadAgain? && e.c == c && (t.lanes[b].generation != s.controllers[c].lane.generation
                                             || !Bindable(t.lanes[b].state)))
  {
    if MovesOnly(e) {
      MoveShape(t, b, s, e);
    } else if ChangesLane(e) {
      ChangeEnds(t, b, s, e, c);
    } else {
      PlainEnds(t, b, s, e, c);
    }
    hide After, Enabled, ChangeOf;
  }

  lemma ChangeEnds(t: Tables, b: BodyId, s: Body, e: Event, c: Cid)
    requires Enabled(t, b, s, e) && ChangesLane(e) && c in s.controllers && FollowsUp(s.controllers[c].phase)
    requires c !in After(t, b, s, e).body.controllers
    ensures e.Conclude? && e.c == c
  {
    ChangeOfIs(t, b, s, e);
    hide After, ChangeOf;
  }

  lemma PlainEnds(t: Tables, b: BodyId, s: Body, e: Event, c: Cid)
    requires Enabled(t, b, s, e) && !ChangesLane(e) && !MovesOnly(e) && e != Crash(c)
    requires c in s.controllers && FollowsUp(s.controllers[c].phase) && c !in After(t, b, s, e).body.controllers
    ensures (e.NoteForeground? && e.c == c) || (e.NoteBusy? && e.c == c)
            || (e.ReadAgain? && e.c == c && (t.lanes[b].generation != s.controllers[c].lane.generation
                                             || !Bindable(t.lanes[b].state)))
  {
    hide Reserve, Bind, Cancel, Revoke, Transition, RecordForeground, Over, AfterChange;
  }

  lemma NotedEnds(t: Tables, b: BodyId, s: Body, e: Event)
    requires Enabled(t, b, s, e) && e.NoteForeground? && e.c !in After(t, b, s, e).body.controllers
    ensures s.controllers[e.c].phase.Seen?
    ensures var read, lane' := s.controllers[e.c].lane, After(t, b, s, e).tables.lanes;
            b in lane' && lane'[b].generation == read.generation && lane'[b].state == ProviderRunning
            && lane'[b].foreground == Some(s.controllers[e.c].phase.group)
  {
  }

  /** Stopping a lane ends the live processes of the group that is noted in it and is in front, and no other ones. */
  lemma StoppingEndsGroup(t: Tables, b: BodyId, s: Body, e: Event)
    requires Enabled(t, b, s, e) && e.StopJob?
    ensures e.c in s.controllers && s.foreground.Job? && s.controllers[e.c].lane.state == ProviderRunning
    ensures s.controllers[e.c].lane.foreground == Some(s.foreground.group)
    ensures var s' := After(t, b, s, e).body;
            && (forall g | g in s'.agents :: g in s.agents && s'.agents[g] == s.agents[g])
            && (forall g | g in s.agents :: g !in s'.agents <==> s.agents[g].group == s.foreground.group)
            && s'.foreground == Shell && s'.files == s.files && s'.typed == s.typed
  {}

  // ---- the provider of a generation ----

  /** From its admission on, a lane is for the provider that was asked for, as long as its generation can be bound. */
  lemma AdmittedProvider(ws: seq<World>, actions: seq<Action>, a: nat, j: nat, b: BodyId)
    requires IsRun(ws, actions) && a < j < |ws| && Swaps(ws, actions, a, b) && actions[a].e.Admit?
    requires b in ws[j].tables.lanes && ws[j].tables.lanes[b].generation == ws[a + 1].tables.lanes[b].generation
    requires Bindable(ws[j].tables.lanes[b].state)
    ensures ws[j].tables.lanes[b].launchProvider == Some(actions[a].e.provider)
  {
    hide Inv, After, Enabled, Precedes, Swaps;
    AdmitWrites(ws, actions, a, b);
    AdmitsBody(ws, actions, a, b);
    Meanwhile(ws, actions, a, b);
    LaneHistory(ws, actions, a + 1, j, b);
    SameProvider(ws[a + 1], ws[j], b);
  }

  lemma AdmitsBody(ws: seq<World>, actions: seq<Action>, a: nat, b: BodyId)
    requires IsRun(ws, actions) && Swaps(ws, actions, a, b)
    ensures a < |actions| && b in ws[a].bodies && b in ws[a + 1].bodies
    ensures b in ws[a].tables.lanes && b in ws[a + 1].tables.lanes
  {
    assert Taken(ws, actions, a);
  }

  lemma SameProvider(w: World, w': World, b: BodyId)
    requires Precedes(w, w', b) && w.tables.lanes[b].generation == w'.tables.lanes[b].generation
    requires Bindable(w'.tables.lanes[b].state)
    ensures w'.tables.lanes[b].launchProvider == w.tables.lanes[b].launchProvider
  {}

  /** A capability is reserved for the provider that its lane was admitted for. */
  lemma ReservedProvider(ws: seq<World>, actions: seq<Action>, a: nat, j: nat, b: BodyId, g: nat, token: Token)
    requires IsRun(ws, actions) && a < j && Swaps(ws, actions, a, b) && actions[a].e.Admit?
    requires Reserves(ws, actions, j, b, g, token) && g == ws[a + 1].tables.lanes[b].generation
    ensures actions[j].e.request.provider == actions[a].e.provider
  {
    hide Inv, After, Precedes, Swaps, LastReading, Reserve;
    var c := actions[j].e.c;
    assert Taken(ws, actions, j);
    EveryWorld(ws, actions, j);
    StartsReading(ws[j].tables, b, ws[j].bodies[b], actions[j].e);
    var k := ReadingWas(ws, actions, j, b, c);
    LastIsBefore(actions, k, j, b, c);
    SwapShape(ws, actions, a, b);
    AdmitsBody(ws, actions, a, b);
    if k < a { NeverFalls(ws, actions, k + 1, a, b); }
    StartingIsBindable(ws[k + 1].tables.lanes[b].state);
    AdmittedProvider(ws, actions, a, k + 1, b);
  }

  lemma LastIsBefore(actions: seq<Action>, k: nat, j: nat, b: BodyId, c: Cid)
    requires LastReading(actions, k, j, b, c)
    ensures k < j
  {}

  lemma NeverFalls(ws: seq<World>, actions: seq<Action>, i: nat, j: nat, b: BodyId)
    requires IsRun(ws, actions) && i <= j < |ws| && b in ws[i].bodies
    ensures b in ws[i].tables.lanes && b in ws[j].tables.lanes
    ensures ws[i].tables.lanes[b].generation <= ws[j].tables.lanes[b].generation
  {
    LaneHistory(ws, actions, i, j, b);
  }

  lemma StartingIsBindable(state: LaneState)
    requires Starting(state)
    ensures Bindable(state)
  {}

  lemma StartsReading(t: Tables, b: BodyId, s: Body, e: Event)
    requires Inv(t, b, s) && Enabled(t, b, s, e) && e.ReserveToken?
    ensures e.c in s.controllers && Starting(s.controllers[e.c].lane.state)
    ensures s.controllers[e.c].lane.launchProvider == Some(e.request.provider)
  {
    ControllerPart(t, b, s, e.c);
  }

  // ---- the capability of a generation ----

  lemma ReserveLeaves(t: Tables, op: Store.Op, token: Token, b: BodyId)
    requires op.OpReserve? && token in Open(t, b) && !Closes(t, op, token)
    ensures token in Store.Apply(t, op).launches && Store.Apply(t, op).launches[token] == t.launches[token]
  {}

  lemma BindLeaves(t: Tables, op: Store.Op, token: Token, b: BodyId)
    requires op.OpBind? && token in Open(t, b) && !Closes(t, op, token)
    ensures token in Store.Apply(t, op).launches && Store.Apply(t, op).launches[token] == t.launches[token]
  {}

  /** A capability that is not taken away stays as it was reserved. */
  lemma LaunchStays(t: Tables, op: Store.Op, token: Token, b: BodyId)
    requires token in Open(t, b) && !Closes(t, op, token)
    ensures token in Store.Apply(t, op).launches && Store.Apply(t, op).launches[token] == t.launches[token]
  {
    hide Bind, Reserve;
    if op.OpReserve? { ReserveLeaves(t, op, token, b); } else if op.OpBind? { BindLeaves(t, op, token, b); }
  }

  lemma {:induction false} RemainsAsReserved(ws: seq<World>, actions: seq<Action>, j: nat, i: nat, b: BodyId, g: nat,
                                             token: Token)
    requires IsRun(ws, actions) && i < |ws| && Remains(ws, actions, j, i, b, g, token)
    ensures token in Open(ws[i].tables, b)
    ensures token in ws[i].tables.launches
            && ws[i].tables.launches[token] == ReservedLaunch(actions[j].e.request, actions[j].e.at)
  {
    hide Then, CanHappen, OperationOf, Store.Apply, Closes, Reserves, Open, Reserve;
    if i == j + 1 {
      JustReserved(ws, actions, j, b, g, token);
    } else {
      var l := i - 1;
      RemainsAsReserved(ws, actions, j, l, b, g, token);
      assert !ClosedAt(ws, actions, l, token);
      assert Taken(ws, actions, l);
      Performs(ws[l], actions[l]);
      OpenStep(ws, actions, l, b, token);
      if OperationOf(ws[l], actions[l]).Some? {
        LaunchStays(ws[l].tables, OperationOf(ws[l], actions[l]).value, token, b);
      }
    }
  }

  lemma JustReserved(ws: seq<World>, actions: seq<Action>, j: nat, b: BodyId, g: nat, token: Token)
    requires IsRun(ws, actions) && Reserves(ws, actions, j, b, g, token)
    ensures token in Open(ws[j + 1].tables, b) && token in ws[j + 1].tables.launches
    ensures ws[j + 1].tables.launches[token] == ReservedLaunch(actions[j].e.request, actions[j].e.at)
  {
    assert Taken(ws, actions, j);
  }

  // ---- a launched process is accepted ----

  /** The conversation is what the request was for: a new one, or the resume of this one as it stopped. */
  predicate Wanted(t: Tables, r: Request, key: Key) {
    match r.operation
    case New => key !in t.records
    case Resume(target) =>
      target == key && key in t.records && t.records[key].managed && t.records[key].state == Stopped
      && t.records[key].name == r.name
  }

  /**
   A process that was launched with the capability of its generation binds its lane: the capability was reserved after
   the lane was admitted, is still good and has not been taken away; the conversation is of the provider that the lane
   was admitted for and is the one that was asked for; and the generation still waits for its identity.
   */
  lemma LaunchedBinds(ws: seq<World>, actions: seq<Action>, a: nat, j: nat, i: nat, b: BodyId, token: Token)
    requires IsRun(ws, actions) && a < j < i && Swaps(ws, actions, a, b) && actions[a].e.Admit?
    requires Remains(ws, actions, j, i, b, ws[a + 1].tables.lanes[b].generation, token)
    requires Of(actions, i, b) && actions[i].e.HookFires?
    requires b in ws[i].bodies && actions[i].e.generation in ws[i].bodies[b].agents
    requires ws[i].bodies[b].agents[actions[i].e.generation].token == token
    requires b in ws[i].tables.lanes && ws[i].tables.lanes[b].generation == ws[a + 1].tables.lanes[b].generation
    requires Bindable(ws[i].tables.lanes[b].state) && ws[i].tables.lanes[b].bound.None?
    requires actions[i].e.key.provider == actions[a].e.provider && actions[i].e.writes >= 3
    requires actions[i].e.project == actions[j].e.request.project
    requires actions[i].e.at <= actions[j].e.at + actions[j].e.request.ttl
    requires Wanted(ws[i].tables, actions[j].e.request, actions[i].e.key)
    ensures b in ws[i + 1].tables.lanes && ws[i + 1].tables.lanes[b].bound == Some(actions[i].e.key)
    ensures Bind(ws[i].tables, HookAt(ws, actions, i), actions[i].e.at, actions[i].e.writes).outcome == Done
  {
    hide Bind, Entitled, Accepts, Inv, Swaps, Reserves, Remains, Precedes, Reserve;
    AdmitsBody(ws, actions, a, b);
    var g := ws[a + 1].tables.lanes[b].generation;
    RemainsReserves(ws, actions, j, i, b, g, token);
    RemainsAsReserved(ws, actions, j, i, b, g, token);
    AdmittedProvider(ws, actions, a, i, b);
    ReservedBody(ws, actions, j, b, g, token);
    ReservedProvider(ws, actions, a, j, b, g, token);
    HookStep(ws, actions, i, b);
    BindPublishes(ws[i].tables, HookAt(ws, actions, i), actions[i].e.at, actions[i].e.writes);
    IsAccepted(ws[i].tables.lanes[b], actions[i].e.key.provider);
    WantedIsEntitled(ws[i].tables, HookAt(ws, actions, i), actions[i].e.at, actions[i].e.writes, actions[j].e.request,
                     actions[j].e.at);
  }

  lemma IsAccepted(lane: Lane, provider: string)
    requires Bindable(lane.state) && lane.launchProvider == Some(provider)
    ensures Accepts(lane, provider)
  {}

  lemma WantedIsEntitled(t: Tables, h: Hook, at: int, writes: nat, r: Request, reserved: int)
    requires h.token in t.launches && t.launches[h.token] == ReservedLaunch(r, reserved) && writes >= 3
    requires Wanted(t, r, h.key) && h.key.provider == r.provider && h.bodyId == r.bodyId && h.project == r.project
    requires at <= reserved + r.ttl && h.bodyId in t.lanes && Accepts(t.lanes[h.bodyId], h.key.provider)
    requires t.lanes[h.bodyId].bound.None?
    ensures Entitled(t, h, at, writes) && Bind(t, h, at, writes).outcome == Done
  {}

  lemma ReservedBody(ws: seq<World>, actions: seq<Action>, j: nat, b: BodyId, g: nat, token: Token)
    requires IsRun(ws, actions) && Reserves(ws, actions, j, b, g, token)
    ensures Of(actions, j, b) && actions[j].e.ReserveToken? && actions[j].e.request.bodyId == b
  {
    assert Taken(ws, actions, j);
  }
}

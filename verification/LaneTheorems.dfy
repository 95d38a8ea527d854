/**
 What the lane protocol promises over whole runs: which generation a process
 binds, which capabilities are left when a generation is settled, and when an
 exit loses an identity.
 */
module LaneTheorems {
  import opened Wrappers
  import opened SessionTables
  import opened LaneProtocol
  import opened LaneSafety
  import opened LaneRuns
  import SessionRecords

  /** The action `i` of the run is an event of body `b`. */
  predicate Of(actions: seq<Action>, i: nat, b: BodyId) {
    i < |actions| && actions[i].Happens? && actions[i].b == b
  }

  lemma Meanwhile(ws: seq<World>, actions: seq<Action>, i: nat, b: BodyId)
    requires IsRun(ws, actions) && i < |actions| && b in ws[i].bodies
    ensures Precedes(ws[i], ws[i + 1], b) && Inv(ws[i].tables, b, ws[i].bodies[b])
    ensures Of(actions, i, b) ==>
              && Enabled(ws[i].tables, b, ws[i].bodies[b], actions[i].e)
              && ws[i + 1].tables == After(ws[i].tables, b, ws[i].bodies[b], actions[i].e).tables
              && ws[i + 1].bodies[b] == After(ws[i].tables, b, ws[i].bodies[b], actions[i].e).body
    ensures !Of(actions, i, b) ==> ws[i + 1].bodies[b] == ws[i].bodies[b]
  {
    hide Inv, After, Enabled, Precedes;
    LastStep(ws, actions, i, b);
    EveryWorld(ws, actions, i);
    assert Taken(ws, actions, i);
  }

  // ---- misleading looks ----

  predicate IsLook(e: Event) {
    e.SeeIdle? || e.ObserveForeground? || e.StopJob?
  }

  /**
   A controller looked at the terminal of `b`, found the shell in front, and took the generation of its reading for
   over, while the launcher of that generation still waited or its process was alive in the background.
   */
  predicate Misjudges(ws: seq<World>, actions: seq<Action>, k: nat, b: BodyId) {
    && Of(actions, k, b) && k + 1 < |ws| && IsLook(actions[k].e)
    && b in ws[k].bodies && actions[k].e.c in ws[k].bodies[b].controllers
    && b in ws[k + 1].bodies && ws[k + 1].bodies[b].foreground == Shell
    && !Over(ws[k + 1].bodies[b], ws[k].bodies[b].controllers[actions[k].e.c].lane.generation)
  }

  lemma LookMisleads(t: Tables, b: BodyId, s: Body, e: Event)
    requires Enabled(t, b, s, e) && IsLook(e) && !s.misled && After(t, b, s, e).body.misled
    ensures e.c in s.controllers && After(t, b, s, e).body.foreground == Shell
    ensures !Over(After(t, b, s, e).body, s.controllers[e.c].lane.generation)
  {
  }

  lemma OthersDoNot(t: Tables, b: BodyId, s: Body, e: Event)
    requires Enabled(t, b, s, e) && !MovesOnly(e) && !ChangesLane(e) && !IsLook(e)
    ensures After(t, b, s, e).body.misled == s.misled
  {
    hide Bind, Reserve, Cancel, Revoke, Transition, RecordForeground;
  }

  lemma MisledByLook(t: Tables, b: BodyId, s: Body, e: Event)
    requires Enabled(t, b, s, e) && !s.misled && After(t, b, s, e).body.misled
    ensures IsLook(e) && e.c in s.controllers && After(t, b, s, e).body.foreground == Shell
    ensures !Over(After(t, b, s, e).body, s.controllers[e.c].lane.generation)
  {
    hide After, Enabled, Over, ChangeOf;
    if MovesOnly(e) {
      MoveShape(t, b, s, e);
    } else if ChangesLane(e) {
      ChangeOfIs(t, b, s, e);
    } else if IsLook(e) {
      LookMisleads(t, b, s, e);
    } else {
      OthersDoNot(t, b, s, e);
    }
  }

  lemma {:induction false} MisledEarlier(ws: seq<World>, actions: seq<Action>, i: nat, b: BodyId) returns (k: nat)
    requires IsRun(ws, actions) && i < |ws| && b in ws[i].bodies && ws[i].bodies[b].misled
    ensures k < i && Misjudges(ws, actions, k, b)
  {
    hide Inv, After, Enabled, Over, Precedes;
    assert i > 0;
    assert Taken(ws, actions, i - 1);
    assert b in ws[i - 1].bodies;
    Meanwhile(ws, actions, i - 1, b);
    if ws[i - 1].bodies[b].misled {
      k := MisledEarlier(ws, actions, i - 1, b);
    } else {
      k := i - 1;
      MisledByLook(ws[k].tables, b, ws[k].bodies[b], actions[k].e);
    }
  }

  // ---- which generation a process binds ----

  /**
   Either the conversation is on record as running in this body and its capability is used up or claimed by it, or its
   capability admits it; and the hook lives long enough to write the lane.
   */
  predicate Entitled(t: Tables, h: Hook, at: int, writes: nat) {
    if SessionRecords.RunsHere(t, h) then
      writes >= 1 && (h.token in t.launches ==> t.launches[h.token].claim == Claimed(h.key))
    else
      writes >= 3 && h.token in t.launches && SessionRecords.Admits(t, t.launches[h.token], h, at)
  }

  predicate Accepts(lane: Lane, provider: string) {
    lane.state in {LaunchReserved, Relaunching, ProviderRunning} && lane.launchProvider == Some(provider)
  }

  /**
   A hook gives an unbound lane its identity exactly when it is entitled to, whatever the generation of its process.
   */
  lemma BindPublishes(t: Tables, h: Hook, at: int, writes: nat)
    requires h.bodyId in t.lanes && t.lanes[h.bodyId].bound.None?
    ensures h.bodyId in Bind(t, h, at, writes).tables.lanes
    ensures Bind(t, h, at, writes).tables.lanes[h.bodyId].bound
         == if Accepts(t.lanes[h.bodyId], h.key.provider) && Entitled(t, h, at, writes) then Some(h.key) else None
  {
  }

  lemma BoundStaysBound(t: Tables, h: Hook, at: int, writes: nat)
    requires h.bodyId in t.lanes && t.lanes[h.bodyId].bound.Some?
    ensures h.bodyId in Bind(t, h, at, writes).tables.lanes
    ensures Bind(t, h, at, writes).tables.lanes[h.bodyId].bound == t.lanes[h.bodyId].bound
  {
    BindEffect(t, h, at, writes);
  }

  /** The hook that fires at step `i` of a run. */
  function HookAt(ws: seq<World>, actions: seq<Action>, i: nat): Hook
    requires i < |actions| && i < |ws| && actions[i].Happens? && actions[i].e.HookFires?
    requires actions[i].b in ws[i].bodies && actions[i].e.generation in ws[i].bodies[actions[i].b].agents
  {
    Hook(ws[i].bodies[actions[i].b].agents[actions[i].e.generation].token, actions[i].e.key, actions[i].b,
      actions[i].e.project)
  }

  lemma HookStep(ws: seq<World>, actions: seq<Action>, i: nat, b: BodyId)
    requires IsRun(ws, actions) && Of(actions, i, b) && actions[i].e.HookFires?
    ensures b in ws[i].bodies && actions[i].e.generation in ws[i].bodies[b].agents && b in ws[i].tables.lanes
    ensures ws[i + 1].tables == Bind(ws[i].tables, HookAt(ws, actions, i), actions[i].e.at, actions[i].e.writes).tables
  {
    hide Bind;
    EveryWorld(ws, actions, i);
    assert Taken(ws, actions, i);
  }

  /** As long as no look was misleading, a live process belongs to the generation of its lane. */
  lemma LivesInItsGeneration(ws: seq<World>, actions: seq<Action>, i: nat, b: BodyId, g: nat)
    requires IsRun(ws, actions) && i < |ws| && b in ws[i].bodies && g in ws[i].bodies[b].agents
    requires forall k | 0 <= k < i :: !Misjudges(ws, actions, k, b)
    ensures b in ws[i].tables.lanes && Belongs(ws[i].tables.lanes[b], g)
  {
    hide Misjudges;
    EveryWorld(ws, actions, i);
    assert Inv(ws[i].tables, b, ws[i].bodies[b]);
    if ws[i].bodies[b].misled { var k := MisledEarlier(ws, actions, i, b); assert false; }
  }

  /**
   A process started for one generation never writes its lane at another, unless a controller misjudged the terminal
   before: when a hook changes a lane, the lane is at the generation of the hook's process, before and after, and no
   other lane changes.
   */
  lemma BindsOwnGeneration(ws: seq<World>, actions: seq<Action>, i: nat, b: BodyId)
    requires IsRun(ws, actions) && Of(actions, i, b) && actions[i].e.HookFires?
    requires forall k | 0 <= k < i :: !Misjudges(ws, actions, k, b)
    ensures b in ws[i].tables.lanes && b in ws[i + 1].tables.lanes
    ensures ws[i + 1].tables.lanes[b] != ws[i].tables.lanes[b] ==>
              ws[i].tables.lanes[b].generation == ws[i + 1].tables.lanes[b].generation == actions[i].e.generation
    ensures forall x | x in ws[i].tables.lanes && x != b ::
              x in ws[i + 1].tables.lanes && ws[i + 1].tables.lanes[x] == ws[i].tables.lanes[x]
  {
    hide Bind, Misjudges;
    HookStep(ws, actions, i, b);
    LivesInItsGeneration(ws, actions, i, b, actions[i].e.generation);
    BindEffect(ws[i].tables, HookAt(ws, actions, i), actions[i].e.at, actions[i].e.writes);
  }

  /**
   Exactly when a process binds a lane at another generation than its own: the lane is then unbound, admitted for the
   same provider and not left, and the hook is entitled; and then some controller misjudged the terminal before.
   */
  lemma BindsOtherGeneration(ws: seq<World>, actions: seq<Action>, i: nat, b: BodyId)
    requires IsRun(ws, actions) && Of(actions, i, b) && actions[i].e.HookFires?
    requires b in ws[i].tables.lanes && ws[i].tables.lanes[b].generation != actions[i].e.generation
    ensures b in ws[i].bodies && actions[i].e.generation in ws[i].bodies[b].agents && b in ws[i + 1].tables.lanes
    ensures var before, after, e := ws[i].tables.lanes[b], ws[i + 1].tables.lanes[b], actions[i].e;
            && after.generation == before.generation
            && (after.bound != before.bound <==>
                  before.bound.None? && Accepts(before, e.key.provider)
                  && Entitled(ws[i].tables, HookAt(ws, actions, i), e.at, e.writes))
            && (after.bound != before.bound ==>
                  after.bound == Some(e.key) && exists k | 0 <= k < i :: Misjudges(ws, actions, k, b))
  {
    hide Bind, Misjudges, Entitled, Accepts;
    HookStep(ws, actions, i, b);
    var e, h := actions[i].e, HookAt(ws, actions, i);
    BindEffect(ws[i].tables, h, e.at, e.writes);
    if ws[i].tables.lanes[b].bound.None? {
      BindPublishes(ws[i].tables, h, e.at, e.writes);
      if forall k | 0 <= k < i :: !Misjudges(ws, actions, k, b) { BindsOwnGeneration(ws, actions, i, b); }
    } else {
      BoundStaysBound(ws[i].tables, h, e.at, e.writes);
    }
  }

  // ---- settling ----

  lemma SettlingStep(ws: seq<World>, actions: seq<Action>, i: nat, b: BodyId)
    requires IsRun(ws, actions) && Of(actions, i, b) && actions[i].e.Conclude?
    ensures b in ws[i].bodies && b in ws[i].tables.lanes && b in ws[i + 1].tables.lanes
    ensures ws[i + 1].tables.lanes[b] != ws[i].tables.lanes[b] ==>
              Settles(ws[i].tables.lanes[b], ws[i].bodies[b], Open(ws[i + 1].tables, b))
  {
    hide After, Settles;
    EveryWorld(ws, actions, i);
    assert Taken(ws, actions, i);
    assert Inv(ws[i].tables, b, ws[i].bodies[b]);
    ConcludeKeeps(ws[i].tables, b, ws[i].bodies[b], actions[i].e);
  }

  /** At step `j` a dispatch reserved `token` for `generation`. */
  predicate Reserves(ws: seq<World>, actions: seq<Action>, j: nat, b: BodyId, generation: nat, token: Token) {
    && Of(actions, j, b) && j + 1 < |ws| && actions[j].e.ReserveToken? && actions[j].e.request.token == token
    && b in ws[j].bodies && actions[j].e.c in ws[j].bodies[b].controllers
    && ws[j].bodies[b].controllers[actions[j].e.c].lane.generation == generation
    && Reserve(ws[j].tables, actions[j].e.request, actions[j].e.at, actions[j].e.later).outcome == Done
  }

  lemma ReservedIsIssued(ws: seq<World>, actions: seq<Action>, j: nat, i: nat, b: BodyId, generation: nat, token: Token)
    requires IsRun(ws, actions) && j < i < |ws| && Reserves(ws, actions, j, b, generation, token)
    ensures b in ws[i].bodies && (generation, token) in ws[i].bodies[b].issued
  {
    hide Reserve;
    assert Taken(ws, actions, j);
    assert (generation, token) in ws[j + 1].bodies[b].issued;
    LaneHistory(ws, actions, j + 1, i, b);
  }

  /**
   When a recovery settles a generation, as not run or as ended, no capability that was ever reserved for it is open;
   and unless a look was misleading, no capability of the body is.
   */
  lemma SettlingLeavesNoToken(ws: seq<World>, actions: seq<Action>, i: nat, b: BodyId)
    requires IsRun(ws, actions) && Of(actions, i, b) && actions[i].e.Conclude?
    ensures b in ws[i].tables.lanes && b in ws[i + 1].tables.lanes
    ensures ws[i + 1].tables.lanes[b] != ws[i].tables.lanes[b] ==>
              && (forall j, token | 0 <= j < i
                 && Reserves(ws, actions, j, b, ws[i].tables.lanes[b].generation, token) ::
                    token !in Open(ws[i + 1].tables, b))
              && ((forall k | 0 <= k < i :: !Misjudges(ws, actions, k, b)) ==> Open(ws[i + 1].tables, b) == {})
  {
    hide Misjudges, Reserves, Open;
    SettlingStep(ws, actions, i, b);
    if ws[i + 1].tables.lanes[b] != ws[i].tables.lanes[b] {
      var g := ws[i].tables.lanes[b].generation;
      forall j, token | 0 <= j < i && Reserves(ws, actions, j, b, g, token)
        ensures token !in Open(ws[i + 1].tables, b) {
        ReservedIsIssued(ws, actions, j, i, b, g, token);
      }
      if ws[i].bodies[b].misled { var k := MisledEarlier(ws, actions, i, b); }
    }
  }

  // ---- competing controllers ----

  /** At step `i` a controller changes the lane of `b` by compare-and-swap. */
  predicate Swaps(ws: seq<World>, actions: seq<Action>, i: nat, b: BodyId) {
    && Of(actions, i, b) && i + 1 < |ws| && (actions[i].e.Admit? || ChangesLane(actions[i].e))
    && b in ws[i].tables.lanes && b in ws[i + 1].tables.lanes && ws[i].tables.lanes[b] != ws[i + 1].tables.lanes[b]
  }

  lemma SwapShape(ws: seq<World>, actions: seq<Action>, i: nat, b: BodyId)
    requires IsRun(ws, actions) && Swaps(ws, actions, i, b)
    ensures b in ws[i].bodies
    ensures var p, q := ws[i].tables.lanes[b], ws[i + 1].tables.lanes[b];
            if actions[i].e.Admit? then Progress(p.state) == 3 && Progress(q.state) == 1
              && q.generation == p.generation + 1
            else Progress(p.state) < Progress(q.state) && 3 <= Progress(q.state) && q.generation == p.generation
  {
    hide Inv, BodyInv;
    EveryWorld(ws, actions, i);
    assert Taken(ws, actions, i);
    var t, s, e := ws[i].tables, ws[i].bodies[b], actions[i].e;
    assert Inv(t, b, s);
    if e.Admit? {
      ControllerPart(t, b, s, e.c);
    } else {
      ChangeOfIs(t, b, s, e);
      ChangeOfExpects(t, b, s, e);
      hide After;
    }
  }

  /** However many controllers act on the same reading, one dispatch is admitted for each generation. */
  lemma OneAdmission(ws: seq<World>, actions: seq<Action>, i: nat, j: nat, b: BodyId)
    requires IsRun(ws, actions) && i < j && Swaps(ws, actions, i, b) && Swaps(ws, actions, j, b)
    requires actions[i].e.Admit? && actions[j].e.Admit?
    ensures ws[i + 1].tables.lanes[b].generation < ws[j + 1].tables.lanes[b].generation
  {
    SwapShape(ws, actions, i, b);
    SwapShape(ws, actions, j, b);
    Meanwhile(ws, actions, i, b);
    LaneHistory(ws, actions, i + 1, j, b);
  }

  /** And one controller at most concludes it, however it ends: given up, not run, ended or left. */
  lemma OneConclusion(ws: seq<World>, actions: seq<Action>, i: nat, j: nat, b: BodyId)
    requires IsRun(ws, actions) && i < j && Swaps(ws, actions, i, b) && Swaps(ws, actions, j, b)
    requires ChangesLane(actions[i].e) && ChangesLane(actions[j].e)
    ensures ws[i].tables.lanes[b].generation < ws[j].tables.lanes[b].generation
            || ws[j + 1].tables.lanes[b].state == Destroyed
    ensures ws[i + 1].tables.lanes[b].state != Destroyed
  {
    SwapShape(ws, actions, i, b);
    SwapShape(ws, actions, j, b);
    Meanwhile(ws, actions, i, b);
    LaneHistory(ws, actions, i + 1, j, b);
  }

  // ---- what an exit may lose ----

  predicate ReadsLane(e: Event, c: Cid) {
    (e.ReadLane? || e.ReadAgain? || e.Admit?) && e.c == c
  }

  /** Step `k` is the last one before `i` at which controller `c` read or admitted its lane. */
  predicate LastReading(actions: seq<Action>, k: nat, i: nat, b: BodyId, c: Cid) {
    && k < i <= |actions| && Of(actions, k, b) && ReadsLane(actions[k].e, c)
    && forall j | k < j < i :: !(Of(actions, j, b) && ReadsLane(actions[j].e, c))
  }

  lemma GripsWhatItReads(t: Tables, b: BodyId, s: Body, e: Event, c: Cid)
    requires Enabled(t, b, s, e) && ReadsLane(e, c) && c in After(t, b, s, e).body.controllers
    ensures b in After(t, b, s, e).tables.lanes
    ensures After(t, b, s, e).body.controllers[c].lane == After(t, b, s, e).tables.lanes[b]
  {
  }

  lemma OthersKeepReadings(t: Tables, b: BodyId, s: Body, e: Event, c: Cid)
    requires Enabled(t, b, s, e) && !MovesOnly(e) && !ChangesLane(e)
    requires !ReadsLane(e, c) && c in After(t, b, s, e).body.controllers
    ensures c in s.controllers && After(t, b, s, e).body.controllers[c].lane == s.controllers[c].lane
  {
    hide Bind, Reserve, Cancel, Revoke, Transition, RecordForeground, Over;
  }

  lemma KeepsItsReading(t: Tables, b: BodyId, s: Body, e: Event, c: Cid)
    requires Enabled(t, b, s, e) && !ReadsLane(e, c) && c in After(t, b, s, e).body.controllers
    ensures c in s.controllers && After(t, b, s, e).body.controllers[c].lane == s.controllers[c].lane
  {
    hide After, Enabled, ChangeOf;
    if MovesOnly(e) {
      MoveShape(t, b, s, e);
      if !e.ReadLane? { MoveAllowed(t, b, s, e); }
    } else if ChangesLane(e) {
      ChangeOfIs(t, b, s, e);
    } else {
      OthersKeepReadings(t, b, s, e, c);
    }
  }

  /** A controller holds the lane as it was at its last reading. */
  lemma {:induction false} ReadingWas(ws: seq<World>, actions: seq<Action>, i: nat, b: BodyId, c: Cid) returns (k: nat)
    requires IsRun(ws, actions) && i < |ws| && b in ws[i].bodies && c in ws[i].bodies[b].controllers
    ensures LastReading(actions, k, i, b, c)
    ensures b in ws[k + 1].bodies && b in ws[k + 1].tables.lanes
    ensures ws[i].bodies[b].controllers[c].lane == ws[k + 1].tables.lanes[b]
  {
    hide Inv, After, Enabled, Precedes;
    assert i > 0;
    assert Taken(ws, actions, i - 1);
    assert b in ws[i - 1].bodies;
    Meanwhile(ws, actions, i - 1, b);
    EveryWorld(ws, actions, i);
    if Of(actions, i - 1, b) && ReadsLane(actions[i - 1].e, c) {
      k := i - 1;
      GripsWhatItReads(ws[k].tables, b, ws[k].bodies[b], actions[k].e, c);
    } else {
      if Of(actions, i - 1, b) { KeepsItsReading(ws[i - 1].tables, b, ws[i - 1].bodies[b], actions[i - 1].e, c); }
      k := ReadingWas(ws, actions, i - 1, b, c);
    }
  }

  /** At step `j` a hook publishes an identity in the unbound lane of `b`, at this generation. */
  predicate HookBinds(ws: seq<World>, actions: seq<Action>, j: nat, b: BodyId, generation: nat) {
    && Of(actions, j, b) && j + 1 < |ws| && actions[j].e.HookFires?
    && b in ws[j].tables.lanes && b in ws[j + 1].tables.lanes && ws[j].tables.lanes[b].generation == generation
    && ws[j].tables.lanes[b].bound.None? && ws[j + 1].tables.lanes[b].bound.Some?
  }

  lemma OnlyHooksBind(t: Tables, b: BodyId, s: Body, e: Event)
    requires Inv(t, b, s) && Enabled(t, b, s, e) && !e.HookFires? && t.lanes[b].bound.None?
    requires b in After(t, b, s, e).tables.lanes && After(t, b, s, e).tables.lanes[b].bound.Some?
    ensures 3 <= Progress(After(t, b, s, e).tables.lanes[b].state)
  {
    if ChangesLane(e) {
      ChangeOfIs(t, b, s, e);
      ChangeOfExpects(t, b, s, e);
    } else if Touches(e) {
      TouchingBindsNone(t, b, s, e);
    } else {
      TablesStay(t, b, s, e);
    }
  }

  lemma TouchingBindsNone(t: Tables, b: BodyId, s: Body, e: Event)
    requires Enabled(t, b, s, e) && Touches(e) && !e.HookFires? && t.lanes[b].bound.None?
    ensures b in After(t, b, s, e).tables.lanes ==> After(t, b, s, e).tables.lanes[b].bound.None?
  {
    hide Reserve, Bind, Cancel;
    if e.ReserveToken? {
      ReserveEffect(t, e.request, e.at, e.later);
    } else if e.WithdrawToken? && s.controllers[e.c].phase.reserved.Some? {
      CancelEffect(t, s.controllers[e.c].phase.reserved.value, b, false);
    }
  }

  lemma ElsewhereNothing(ws: seq<World>, actions: seq<Action>, i: nat, b: BodyId)
    requires IsRun(ws, actions) && i < |actions| && b in ws[i].bodies && !Of(actions, i, b)
    ensures b in ws[i].tables.lanes && b in ws[i + 1].tables.lanes
    ensures ws[i + 1].tables.lanes[b].bound == ws[i].tables.lanes[b].bound
  {
    hide Inv, After, Enabled, Store.Apply, Store.Consistent;
    EveryWorld(ws, actions, i);
    assert Taken(ws, actions, i);
    match actions[i]
    case Happens(x, e) =>
      EventPerformsOne(ws[i].tables, x, ws[i].bodies[x], e);
      OtherBodies(ws[i].tables, x, ws[i + 1].tables);
    case MakesLane(_, _, _, _, _) =>
    case OnStore(op) => StoreFrame(ws[i].tables, op);
  }

  /** An identity that appears in a lane before its agent has left was published by a hook. */
  lemma {:induction false} BoundByHook(ws: seq<World>, actions: seq<Action>, i: nat, j: nat, b: BodyId) returns (k: nat)
    requires IsRun(ws, actions) && i <= j < |ws| && b in ws[i].bodies && Precedes(ws[i], ws[j], b)
    requires ws[i].tables.lanes[b].generation == ws[j].tables.lanes[b].generation
    requires ws[i].tables.lanes[b].bound.None? && ws[j].tables.lanes[b].bound.Some?
    requires Progress(ws[j].tables.lanes[b].state) < 3
    ensures i <= k < j && HookBinds(ws, actions, k, b, ws[j].tables.lanes[b].generation)
  {
    hide Inv, After, Enabled;
    LaneHistory(ws, actions, i, j - 1, b);
    Meanwhile(ws, actions, j - 1, b);
    if ws[j - 1].tables.lanes[b].bound.Some? {
      k := BoundByHook(ws, actions, i, j - 1, b);
    } else {
      k := j - 1;
      if !Of(actions, k, b) {
        ElsewhereNothing(ws, actions, k, b);
      } else if !actions[k].e.HookFires? {
        OnlyHooksBind(ws[k].tables, b, ws[k].bodies[b], actions[k].e);
      }
    }
  }

  predicate Exits(s: Body, e: Event) {
    e.LeaveRunning? || e.DestroyLane?
    || (e.Conclude? && e.c in s.controllers && s.controllers[e.c].phase == Reread(true))
  }

  /** An exit that goes through writes back what its controller read, in the same state and generation. */
  lemma ExitWritesBack(t: Tables, b: BodyId, s: Body, e: Event)
    requires Inv(t, b, s) && Enabled(t, b, s, e) && Exits(s, e)
    requires b in After(t, b, s, e).tables.lanes && After(t, b, s, e).tables.lanes[b] != t.lanes[b]
    ensures e.c in s.controllers
    ensures var read := s.controllers[e.c].lane;
            && read.state == t.lanes[b].state && read.generation == t.lanes[b].generation && read.state != Destroyed
            && After(t, b, s, e).tables.lanes[b].bound == read.bound
  {
    ControllerPart(t, b, s, e.c);
  }

  lemma HookRuns(ws: seq<World>, actions: seq<Action>, j: nat, b: BodyId, generation: nat)
    requires IsRun(ws, actions) && HookBinds(ws, actions, j, b, generation)
    ensures b in ws[j + 1].bodies && ws[j + 1].tables.lanes[b].state == ProviderRunning
    ensures ws[j + 1].tables.lanes[b].generation == generation
  {
    hide Bind;
    HookStep(ws, actions, j, b);
    BindEffect(ws[j].tables, HookAt(ws, actions, j), actions[j].e.at, actions[j].e.writes);
    EveryWorld(ws, actions, j + 1);
  }

  /**
   An exit that goes through clears the identity of its lane exactly when a hook published it, in this generation,
   after the exit's controller last read the lane; and no exit ever brings an identity back or replaces one.
   */
  lemma ExitForgetsIffBoundSince(ws: seq<World>, actions: seq<Action>, k: nat, i: nat, b: BodyId)
    requires IsRun(ws, actions) && Of(actions, i, b) && b in ws[i].bodies && Exits(ws[i].bodies[b], actions[i].e)
    requires LastReading(actions, k, i, b, actions[i].e.c)
    requires b in ws[i].tables.lanes && b in ws[i + 1].tables.lanes
             && ws[i + 1].tables.lanes[b] != ws[i].tables.lanes[b]
    ensures var before, after := ws[i].tables.lanes[b], ws[i + 1].tables.lanes[b];
            && (before.bound.Some? && after.bound.None?
                <==> exists j | k < j < i :: HookBinds(ws, actions, j, b, before.generation))
            && (after.bound != before.bound ==> before.bound.Some? && after.bound.None?)
  {
    hide Inv, After, Enabled, LastReading, HookBinds, ReadsLane;
    Meanwhile(ws, actions, i, b);
    ExitWritesBack(ws[i].tables, b, ws[i].bodies[b], actions[i].e);
    var k' := ReadingWas(ws, actions, i, b, actions[i].e.c);
    LastIsOne(actions, k, k', i, b, actions[i].e.c);
    LaneHistory(ws, actions, k + 1, i, b);
    var read, before := ws[k + 1].tables.lanes[b], ws[i].tables.lanes[b];
    if before.bound.Some? && read.bound.None? {
      var j := BoundByHook(ws, actions, k + 1, i, b);
    }
    if j :| k < j < i && HookBinds(ws, actions, j, b, before.generation) {
      HookRuns(ws, actions, j, b, before.generation);
      LaneHistory(ws, actions, k + 1, j, b);
      LaneHistory(ws, actions, j + 1, i, b);
      BindsUnbound(ws, actions, j, b, before.generation);
    }
  }

  lemma BindsUnbound(ws: seq<World>, actions: seq<Action>, j: nat, b: BodyId, generation: nat)
    requires IsRun(ws, actions) && HookBinds(ws, actions, j, b, generation)
    ensures b in ws[j].tables.lanes && ws[j].tables.lanes[b].bound.None? && b in ws[j].bodies
    ensures b in ws[j + 1].tables.lanes && ws[j + 1].tables.lanes[b].bound.Some?
            && ws[j].tables.lanes[b].generation == generation
    ensures Progress(ws[j].tables.lanes[b].state) < 3
  {
    hide Bind;
    HookStep(ws, actions, j, b);
    BindEffect(ws[j].tables, HookAt(ws, actions, j), actions[j].e.at, actions[j].e.writes);
  }

  lemma LastIsOne(actions: seq<Action>, k: nat, l: nat, i: nat, b: BodyId, c: Cid)
    requires LastReading(actions, k, i, b, c) && LastReading(actions, l, i, b, c)
    ensures k == l < i
  {
  }
}

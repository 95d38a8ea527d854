/**
 Whole runs of the lane protocol, over any number of lanes and conversations:
 what an observer of the three tables can rely on.
 */
module LaneRuns {
  import opened Wrappers
  import opened SessionTables
  import opened LaneProtocol
  import opened LaneSafety
  import Store = SessionInvariants

  datatype World = World(tables: Tables, bodies: map<BodyId, Body>)

  datatype Action =
    | Happens(b: BodyId, e: Event)
    | MakesLane(bodyId: BodyId, name: Option<string>, project: string, cwd: string, at: int)
    | OnStore(op: Store.Op)

  /** Operations on records, names and capabilities that no lane controller performs. */
  predicate StoreOnly(op: Store.Op) {
    op.OpTouch? || op.OpDescribe? || op.OpMarkStopped? || op.OpRename? || op.OpAdopt? || op.OpDestroy?
      || op.OpYieldName?
    || op.OpTakeName? || op.OpExpire?
  }

  predicate CanHappen(w: World, a: Action) {
    match a
    case Happens(b, e) => b in w.bodies && Enabled(w.tables, b, w.bodies[b], e)
    case MakesLane(b, _, _, _, _) => b !in w.bodies
    case OnStore(op) => StoreOnly(op) && Store.Admissible(w.tables, op)
  }

  const NewBody := Body(map[], {}, map[], Shell, map[], {}, {}, false)

  function Then(w: World, a: Action): World
    requires CanHappen(w, a)
  {
    match a
    case Happens(b, e) =>
      var n := After(w.tables, b, w.bodies[b], e);
      World(n.tables, w.bodies[b := n.body])
    case MakesLane(b, name, project, cwd, at) =>
      var step := CreateLane(w.tables, b, name, project, cwd, at);
      World(step.tables, if step.outcome == Done then w.bodies[b := NewBody] else w.bodies)
    case OnStore(op) => World(Store.Apply(w.tables, op), w.bodies)
  }

  ghost predicate WorldInv(w: World) {
    && Store.Consistent(w.tables)
    && w.bodies.Keys == w.tables.lanes.Keys
    && (forall b | b in w.bodies :: Inv(w.tables, b, w.bodies[b]))
  }

  // ---- what one event does to the tables ----

  /** The store operations that the events of one body perform. */
  predicate OfBody(op: Store.Op, b: BodyId) {
    match op
    case OpTransition(body, _, _) => body == b
    case OpForeground(body, _, _, _) => body == b
    case OpRevoke(body) => body == b
    case OpReserve(r, _, _) => r.bodyId == b && !r.newBody
    case OpBind(h, _, _) => h.bodyId == b
    case OpCancel(_, _, _) => true
    case _ => false
  }

  /** Every event performs one store operation, or none. */
  ghost predicate OneOperation(t: Tables, b: BodyId, t': Tables) {
    t' == t || exists op: Store.Op :: OfBody(op, b) && t' == Store.Apply(t, op)
  }

  lemma PerformsOne(t: Tables, b: BodyId, op: Store.Op)
    requires OfBody(op, b)
    ensures OneOperation(t, b, Store.Apply(t, op))
  {
  }

  lemma ChangePerforms(t: Tables, b: BodyId, s: Body, c: Cid, change: Change, at: int)
    ensures OneOperation(t, b, AfterChange(t, b, s, c, change, at).tables)
  {
    PerformsOne(t, b, Store.OpTransition(b, change, at));
  }

  /** Events that change a table, other than by a compare-and-swap of the lane. */
  predicate Touches(e: Event) {
    e.Admit? || e.ReserveToken? || e.NoteForeground? || e.WithdrawToken? || e.NoteBusy? || e.RevokeTokens?
      || e.HookFires?
  }

  lemma TablesStay(t: Tables, b: BodyId, s: Body, e: Event)
    requires Enabled(t, b, s, e) && !ChangesLane(e) && !Touches(e)
    ensures After(t, b, s, e).tables == t
  {
    hide Reserve, Bind, Cancel, Revoke, Transition, RecordForeground, AfterChange;
  }

  lemma NotingPerformsOne(t: Tables, b: BodyId, s: Body, e: Event)
    requires Enabled(t, b, s, e) && (e.NoteForeground? || e.NoteBusy?)
    ensures OneOperation(t, b, After(t, b, s, e).tables)
  {
    hide RecordForeground;
    PerformsOne(t, b, Store.OpForeground(b, s.controllers[e.c].lane.generation, s.controllers[e.c].phase.group, e.at));
  }

  lemma TokensPerformOne(t: Tables, b: BodyId, s: Body, e: Event)
    requires Enabled(t, b, s, e) && (e.WithdrawToken? || e.RevokeTokens?)
    ensures OneOperation(t, b, After(t, b, s, e).tables)
  {
    hide Cancel, Revoke;
    if e.RevokeTokens? {
      PerformsOne(t, b, Store.OpRevoke(b));
    } else if s.controllers[e.c].phase.reserved.Some? {
      PerformsOne(t, b, Store.OpCancel(s.controllers[e.c].phase.reserved.value, b, false));
    }
  }

  lemma LaunchPerformsOne(t: Tables, b: BodyId, s: Body, e: Event)
    requires Enabled(t, b, s, e) && (e.Admit? || e.ReserveToken? || e.HookFires?)
    ensures OneOperation(t, b, After(t, b, s, e).tables)
  {
    hide Transition, Reserve, Bind;
    if e.Admit? {
      PerformsOne(t, b, Store.OpTransition(b, Admission(s.controllers[e.c].lane, e.provider), e.at));
    } else if e.ReserveToken? {
      PerformsOne(t, b, Store.OpReserve(e.request, e.at, e.later));
    } else {
      PerformsOne(t, b, Store.OpBind(Hook(s.agents[e.generation].token, e.key, b, e.project), e.at, e.writes));
    }
  }

  lemma EventPerformsOne(t: Tables, b: BodyId, s: Body, e: Event)
    requires Enabled(t, b, s, e)
    ensures OneOperation(t, b, After(t, b, s, e).tables)
  {
    hide After, Enabled, Store.Apply, AfterChange, ChangeOf;
    if ChangesLane(e) {
      ChangeOfIs(t, b, s, e);
      ChangePerforms(t, b, s, e.c, ChangeOf(s, e), e.at);
    } else if e.NoteForeground? || e.NoteBusy? {
      NotingPerformsOne(t, b, s, e);
    } else if e.WithdrawToken? || e.RevokeTokens? {
      TokensPerformOne(t, b, s, e);
    } else if e.Admit? || e.ReserveToken? || e.HookFires? {
      LaunchPerformsOne(t, b, s, e);
    } else {
      TablesStay(t, b, s, e);
    }
  }

  /** The lanes and the open capabilities of other bodies are not touched, and no body is lost. */
  lemma OtherBodies(t: Tables, b: BodyId, t': Tables)
    requires OneOperation(t, b, t')
    ensures t'.lanes.Keys == t.lanes.Keys
    ensures forall x | x in t.lanes && x != b :: t'.lanes[x] == t.lanes[x] && Open(t', x) <= Open(t, x)
    ensures Store.Consistent(t) ==> Store.Consistent(t')
  {
    if t' != t {
      var op: Store.Op :| OfBody(op, b) && t' == Store.Apply(t, op);
      if Store.Consistent(t) { Store.StepKeeps(t, op); }
      OperationFrame(t, b, op);
    }
  }

  lemma OperationFrame(t: Tables, b: BodyId, op: Store.Op)
    requires OfBody(op, b)
    ensures var t' := Store.Apply(t, op);
            && t'.lanes.Keys == t.lanes.Keys
            && (forall x | x in t.lanes && x != b :: t'.lanes[x] == t.lanes[x] && Open(t', x) <= Open(t, x))
  {
    match op
    case OpReserve(r, at, later) => ReserveEffect(t, r, at, later);
    case OpBind(h, at, writes) => BindEffect(t, h, at, writes);
    case OpCancel(token, body, stopped) => CancelEffect(t, token, body, stopped);
    case OpRevoke(body) => RevokeEffect(t, body);
    case OpTransition(body, change, at) => assert Store.Apply(t, op).launches == t.launches;
    case OpForeground(body, generation, group, at) => assert Store.Apply(t, op).launches == t.launches;
  }

  // ---- every action keeps the invariant ----

  lemma HappensKeeps(w: World, b: BodyId, e: Event)
    requires WorldInv(w) && CanHappen(w, Happens(b, e))
    ensures WorldInv(Then(w, Happens(b, e)))
  {
    var n := After(w.tables, b, w.bodies[b], e);
    var w' := Then(w, Happens(b, e));
    EventPerformsOne(w.tables, b, w.bodies[b], e);
    OtherBodies(w.tables, b, n.tables);
    StepKeeps(w.tables, b, w.bodies[b], e);
    forall x | x in w'.bodies ensures Inv(w'.tables, x, w'.bodies[x]) {
      if x != b {
        assert Inv(w.tables, x, w.bodies[x]);
        FewerOpen(w.tables.lanes[x], w.bodies[x], Open(w.tables, x), Open(w'.tables, x));
      }
    }
  }

  lemma NewBodyInv(lane: Lane, open: set<Token>)
    requires lane.state == Provisional && lane.bound.None?
    ensures BodyInv(lane, NewBody, open)
  {
  }

  lemma MakingKeeps(w: World, a: Action)
    requires WorldInv(w) && CanHappen(w, a) && a.MakesLane?
    ensures WorldInv(Then(w, a))
  {
    hide BodyInv, Store.Consistent;
    var w' := Then(w, a);
    Store.StepKeeps(w.tables, Store.OpCreateLane(a.bodyId, a.name, a.project, a.cwd, a.at));
    assert w'.tables.launches == w.tables.launches;
    if w' != w {
      NewBodyInv(w'.tables.lanes[a.bodyId], Open(w'.tables, a.bodyId));
      forall x | x in w.bodies ensures Inv(w'.tables, x, w'.bodies[x]) {
        assert Inv(w.tables, x, w.bodies[x]);
        assert Open(w'.tables, x) == Open(w.tables, x);
      }
    }
  }

  lemma NameDoesNotMatter(lane: Lane, name: Option<string>, s: Body, open: set<Token>)
    requires BodyInv(lane, s, open)
    ensures BodyInv(lane.(name := name), s, open)
  {
    forall c | c in s.controllers
      ensures ControllerInv(lane.(name := name), s, open, s.controllers[c])
    {
      assert ControllerInv(lane, s, open, s.controllers[c]);
    }
  }

  /** What a record operation may change: it drops launches and renames lanes. */
  ghost predicate RecordsOnly(t: Tables, t': Tables) {
    && t'.lanes.Keys == t.lanes.Keys
    && (forall x | x in t.lanes :: t'.lanes[x] == t.lanes[x].(name := t'.lanes[x].name))
    && (forall token | token in t'.launches :: token in t.launches && t'.launches[token] == t.launches[token])
  }

  lemma NamingFrame(t: Tables, op: Store.Op)
    requires op.OpRename? || op.OpAdopt? || op.OpYieldName? || op.OpTakeName?
    ensures RecordsOnly(t, Store.Apply(t, op))
  {
    if op.OpRename? { RenameFrame(t, op); } else if op.OpAdopt? { AdoptFrame(t, op); }
    hide Rename, Adopt;
  }

  lemma RenameFrame(t: Tables, op: Store.Op)
    requires op.OpRename?
    ensures RecordsOnly(t, Store.Apply(t, op))
  {}

  lemma AdoptFrame(t: Tables, op: Store.Op)
    requires op.OpAdopt?
    ensures RecordsOnly(t, Store.Apply(t, op))
  {}

  lemma StoreFrame(t: Tables, op: Store.Op)
    requires StoreOnly(op)
    ensures RecordsOnly(t, Store.Apply(t, op))
  {
    hide Rename, Adopt, Unnamed, TakeName;
    if op.OpRename? || op.OpAdopt? || op.OpYieldName? || op.OpTakeName? { NamingFrame(t, op); }
  }

  lemma StoringKeeps(w: World, a: Action)
    requires WorldInv(w) && CanHappen(w, a) && a.OnStore?
    ensures WorldInv(Then(w, a))
  {
    var w' := Then(w, a);
    Store.StepKeeps(w.tables, a.op);
    StoreFrame(w.tables, a.op);
    forall x | x in w'.bodies ensures Inv(w'.tables, x, w'.bodies[x]) {
      assert Inv(w.tables, x, w.bodies[x]);
      NameDoesNotMatter(w.tables.lanes[x], w'.tables.lanes[x].name, w.bodies[x], Open(w.tables, x));
      FewerOpen(w'.tables.lanes[x], w.bodies[x], Open(w.tables, x), Open(w'.tables, x));
    }
  }

  lemma ActionKeeps(w: World, a: Action)
    requires WorldInv(w) && CanHappen(w, a)
    ensures WorldInv(Then(w, a))
  {
    match a
    case Happens(b, e) => HappensKeeps(w, b, e);
    case MakesLane(_, _, _, _, _) => MakingKeeps(w, a);
    case OnStore(_) => StoringKeeps(w, a);
  }

  // ---- runs ----

  ghost predicate Taken(ws: seq<World>, actions: seq<Action>, i: nat)
    requires i < |actions| < |ws|
  {
    CanHappen(ws[i], actions[i]) && ws[i + 1] == Then(ws[i], actions[i])
  }

  const Empty := World(Tables(map[], map[], map[]), map[])

  ghost predicate IsRun(ws: seq<World>, actions: seq<Action>) {
    && |ws| == |actions| + 1
    && ws[0] == Empty
    && forall i | 0 <= i < |actions| :: Taken(ws, actions, i)
  }

  /** In every state of every run the store is consistent and every lane satisfies its invariant. */
  lemma {:induction false} EveryWorld(ws: seq<World>, actions: seq<Action>, i: nat)
    requires IsRun(ws, actions) && i < |ws|
    ensures WorldInv(ws[i])
  {
    if i > 0 {
      EveryWorld(ws, actions, i - 1);
      assert Taken(ws, actions, i - 1);
      ActionKeeps(ws[i - 1], actions[i - 1]);
    }
  }

  // ---- lane history ----

  /** How far a lane has come in its generation. */
  function Progress(state: LaneState): nat {
    match state
    case Provisional => 0
    case LaunchReserved => 1
    case Relaunching => 1
    case ProviderRunning => 2
    case ShellIdle => 3
    case ProviderExited => 3
    case Destroyed => 4
  }

  /**
   Until its agent has left, a lane keeps a published identity and the provider it was admitted for; afterwards it keeps
   the identity it then has.
   */
  predicate SameGeneration(a: Lane, b: Lane) {
    && Progress(a.state) <= Progress(b.state)
    && (a.bound.Some? && Progress(b.state) < 3 ==> b.bound == a.bound)
    && (Progress(b.state) < 3 ==> b.launchProvider == a.launchProvider)
    && (Progress(a.state) == Progress(b.state) >= 3 ==> b.bound == a.bound)
  }

  /** One step of the history of a lane. */
  predicate LaneStep(a: Lane, b: Lane) {
    && (b.generation == a.generation || (b.generation == a.generation + 1 && Ready(a.state) && Starting(b.state)))
    && (a.state == Destroyed ==> b.state == Destroyed && b.generation == a.generation)
    && (b.generation == a.generation ==> SameGeneration(a, b))
  }

  lemma ChangeLaneStep(t: Tables, b: BodyId, s: Body, c: Cid, change: Change, at: int)
    requires b in t.lanes && change.expected != Destroyed
    requires if change.advance then Ready(change.expected) && Starting(change.target)
             else Progress(change.expected) < Progress(change.target) && 3 <= Progress(change.target)
    ensures b in Transition(t, b, change, at).tables.lanes
    ensures LaneStep(t.lanes[b], Transition(t, b, change, at).tables.lanes[b])
  {
  }

  predicate ChangesLane(e: Event) {
    e.OpenShell? || e.FailCreation? || e.GiveUp? || e.Conclude? || e.DestroyLane? || e.LeaveRunning?
  }

  /** The compare-and-swap of the controller that ends with this event. */
  function ChangeOf(s: Body, e: Event): Change
    requires ChangesLane(e) && e.c in s.controllers
  {
    var ct := s.controllers[e.c];
    if e.OpenShell? then Reset(Provisional, None, ShellIdle)
    else if e.FailCreation? then Reset(ct.lane.state, None, Destroyed)
    else if e.GiveUp? then Reset(ct.lane.state, None, ShellIdle)
    else if e.DestroyLane? then Exit(ct.lane, Destroyed)
    else if e.Conclude? && ct.phase.Reread? && !ct.phase.ran
      then Reset(ct.lane.state, Some(ct.lane.generation), ShellIdle)
    else Exit(ct.lane, ProviderExited)
  }

  lemma ChangeOfIs(t: Tables, b: BodyId, s: Body, e: Event)
    requires Enabled(t, b, s, e) && ChangesLane(e)
    ensures e.c in s.controllers
    ensures After(t, b, s, e) == AfterChange(t, b, s, e.c, ChangeOf(s, e), e.at)
    ensures !ChangeOf(s, e).advance
  {
  }

  lemma ChangeOfExpects(t: Tables, b: BodyId, s: Body, e: Event)
    requires Inv(t, b, s) && Enabled(t, b, s, e) && ChangesLane(e)
    ensures e.c in s.controllers && ChangeOf(s, e).expected != Destroyed
    ensures Progress(ChangeOf(s, e).expected) < Progress(ChangeOf(s, e).target) && 3 <= Progress(ChangeOf(s, e).target)
  {
    hide Inv, BodyInv, After;
    ControllerPart(t, b, s, e.c);
  }

  lemma AdmitLaneStep(t: Tables, b: BodyId, s: Body, e: Event)
    requires Inv(t, b, s) && Enabled(t, b, s, e) && e.Admit?
    ensures b in After(t, b, s, e).tables.lanes
    ensures LaneStep(t.lanes[b], After(t, b, s, e).tables.lanes[b])
  {
    ControllerPart(t, b, s, e.c);
    ChangeLaneStep(t, b, s, e.c, Admission(s.controllers[e.c].lane, e.provider), e.at);
  }

  lemma EventLaneStep(t: Tables, b: BodyId, s: Body, e: Event)
    requires Inv(t, b, s) && Enabled(t, b, s, e)
    ensures b in After(t, b, s, e).tables.lanes
    ensures LaneStep(t.lanes[b], After(t, b, s, e).tables.lanes[b])
  {
    if ChangesLane(e) {
      ChangeOfIs(t, b, s, e);
      ChangeOfExpects(t, b, s, e);
      ChangeLaneStep(t, b, s, e.c, ChangeOf(s, e), e.at);
    } else if e.Admit? {
      AdmitLaneStep(t, b, s, e);
    } else {
      QuietLaneStep(t, b, s, e);
    }
  }

  lemma NotingLaneStep(t: Tables, b: BodyId, s: Body, e: Event)
    requires Enabled(t, b, s, e) && (e.NoteForeground? || e.NoteBusy? || e.RevokeTokens?)
    ensures b in After(t, b, s, e).tables.lanes
    ensures LaneStep(t.lanes[b], After(t, b, s, e).tables.lanes[b])
  {}

  lemma TouchingLaneStep(t: Tables, b: BodyId, s: Body, e: Event)
    requires Enabled(t, b, s, e) && (e.HookFires? || e.ReserveToken? || e.WithdrawToken?)
    ensures b in After(t, b, s, e).tables.lanes
    ensures LaneStep(t.lanes[b], After(t, b, s, e).tables.lanes[b])
  {
    hide Bind, Reserve, Cancel;
    if e.HookFires? {
      BindEffect(t, Hook(s.agents[e.generation].token, e.key, b, e.project), e.at, e.writes);
    } else if e.ReserveToken? {
      ReserveEffect(t, e.request, e.at, e.later);
    } else if s.controllers[e.c].phase.reserved.Some? {
      CancelEffect(t, s.controllers[e.c].phase.reserved.value, b, false);
    }
  }

  lemma QuietLaneStep(t: Tables, b: BodyId, s: Body, e: Event)
    requires Enabled(t, b, s, e) && !ChangesLane(e) && !e.Admit?
    ensures b in After(t, b, s, e).tables.lanes
    ensures LaneStep(t.lanes[b], After(t, b, s, e).tables.lanes[b])
  {
    hide After;
    if e.NoteForeground? || e.NoteBusy? || e.RevokeTokens? {
      NotingLaneStep(t, b, s, e);
    } else if e.HookFires? || e.ReserveToken? || e.WithdrawToken? {
      TouchingLaneStep(t, b, s, e);
    } else {
      TablesStay(t, b, s, e);
    }
  }

  lemma PlainHistory(t: Tables, b: BodyId, s: Body, e: Event)
    requires Enabled(t, b, s, e) && !MovesOnly(e) && !ChangesLane(e)
    ensures s.everBound <= After(t, b, s, e).body.everBound && s.issued <= After(t, b, s, e).body.issued
  {
    hide Bind, Reserve, Cancel, Revoke, Transition, RecordForeground;
  }

  lemma HistoryGrows(t: Tables, b: BodyId, s: Body, e: Event)
    requires Enabled(t, b, s, e)
    ensures s.everBound <= After(t, b, s, e).body.everBound && s.issued <= After(t, b, s, e).body.issued
  {
    hide After, Enabled, ChangeOf;
    if MovesOnly(e) {
      MoveShape(t, b, s, e);
    } else if ChangesLane(e) {
      ChangeOfIs(t, b, s, e);
    } else {
      PlainHistory(t, b, s, e);
    }
  }

  lemma ControllerPart(t: Tables, b: BodyId, s: Body, c: Cid)
    requires Inv(t, b, s) && c in s.controllers
    ensures ControllerInv(t.lanes[b], s, Open(t, b), s.controllers[c])
  {
  }

  lemma ActionLaneStep(w: World, a: Action, b: BodyId)
    requires WorldInv(w) && CanHappen(w, a) && b in w.bodies
    ensures b in w.tables.lanes && b in Then(w, a).bodies && b in Then(w, a).tables.lanes
    ensures LaneStep(w.tables.lanes[b], Then(w, a).tables.lanes[b])
    ensures w.bodies[b].everBound <= Then(w, a).bodies[b].everBound && w.bodies[b].issued <= Then(w, a).bodies[b].issued
  {
    hide Inv, BodyInv, After, Enabled, Store.Consistent, Store.Apply;
    assert Inv(w.tables, b, w.bodies[b]);
    match a
    case Happens(x, e) =>
      if x == b {
        EventLaneStep(w.tables, b, w.bodies[b], e);
        HistoryGrows(w.tables, b, w.bodies[b], e);
      } else {
        EventPerformsOne(w.tables, x, w.bodies[x], e);
        OtherBodies(w.tables, x, Then(w, a).tables);
      }
    case MakesLane(_, _, _, _, _) =>
    case OnStore(op) => StoreFrame(w.tables, op);
  }

  /** What a lane of an earlier world and the same lane of a later one have to do with each other. */
  predicate Precedes(w: World, w': World, b: BodyId) {
    && b in w.bodies && b in w'.bodies && b in w.tables.lanes && b in w'.tables.lanes
    && w.bodies[b].everBound <= w'.bodies[b].everBound && w.bodies[b].issued <= w'.bodies[b].issued
    && w.tables.lanes[b].generation <= w'.tables.lanes[b].generation
    && (w.tables.lanes[b].generation == w'.tables.lanes[b].generation ==>
       SameGeneration(w.tables.lanes[b], w'.tables.lanes[b]))
    && (w.tables.lanes[b].state == Destroyed ==>
          w'.tables.lanes[b].state == Destroyed && w'.tables.lanes[b].generation == w.tables.lanes[b].generation)
  }

  /**
   Along a run a lane stays, its generation never falls, a destroyed lane stays destroyed, and within a generation a
   published identity stays until the agent has left.
   */
  lemma {:induction false} LaneHistory(ws: seq<World>, actions: seq<Action>, i: nat, j: nat, b: BodyId)
    requires IsRun(ws, actions) && i <= j < |ws| && b in ws[i].bodies
    ensures Precedes(ws[i], ws[j], b)
  {
    if i == j {
      EveryWorld(ws, actions, i);
      assert Inv(ws[i].tables, b, ws[i].bodies[b]);
    } else {
      LaneHistory(ws, actions, i, j - 1, b);
      LastStep(ws, actions, j - 1, b);
    }
  }

  lemma LastStep(ws: seq<World>, actions: seq<Action>, i: nat, b: BodyId)
    requires IsRun(ws, actions) && i < |actions| && b in ws[i].bodies
    ensures Precedes(ws[i], ws[i + 1], b)
  {
    EveryWorld(ws, actions, i);
    assert Taken(ws, actions, i);
    ActionLaneStep(ws[i], actions[i], b);
  }

  /** The generation grows only when a ready lane is admitted to a launch, and then by one. */
  lemma GenerationGrowsAtLaunch(ws: seq<World>, actions: seq<Action>, i: nat, b: BodyId)
    requires IsRun(ws, actions) && i < |actions| && b in ws[i].bodies
    ensures b in ws[i].tables.lanes && b in ws[i + 1].tables.lanes
    ensures LaneStep(ws[i].tables.lanes[b], ws[i + 1].tables.lanes[b])
  {
    EveryWorld(ws, actions, i);
    assert Taken(ws, actions, i);
    ActionLaneStep(ws[i], actions[i], b);
  }

  /** However stale the readings of controllers are, one generation never shows two identities. */
  lemma OneIdentityPerGeneration(ws: seq<World>, actions: seq<Action>, i: nat, j: nat, b: BodyId)
    requires IsRun(ws, actions) && i <= j < |ws| && b in ws[i].bodies
    ensures b in ws[i].tables.lanes && b in ws[j].tables.lanes
    ensures var p, q := ws[i].tables.lanes[b], ws[j].tables.lanes[b];
            p.generation == q.generation && p.bound.Some? && q.bound.Some? ==> p.bound == q.bound
  {
    EveryWorld(ws, actions, i);
    EveryWorld(ws, actions, j);
    LaneHistory(ws, actions, i, j, b);
    assert Inv(ws[i].tables, b, ws[i].bodies[b]) && Inv(ws[j].tables, b, ws[j].bodies[b]);
    var p, q := ws[i].tables.lanes[b], ws[j].tables.lanes[b];
    if p.bound.Some? && q.bound.Some? && p.generation == q.generation {
      assert (p.generation, p.bound.value) in ws[j].bodies[b].everBound;
      assert (q.generation, q.bound.value) in ws[j].bodies[b].everBound;
    }
  }
}

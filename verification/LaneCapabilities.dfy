/**
 The capabilities of a lane's body over whole runs: which operations open one and take one away, and which are open when
 a recovery has settled a generation.
 */
module LaneCapabilities {
  import opened Wrappers
  import opened SessionTables
  import opened LaneProtocol
  import opened LaneSafety
  import opened LaneRuns
  import opened LaneTheorems
  import Store = SessionInvariants

  // ---- what takes a capability away ----

  /** What a reservation still finds when it has dropped the expired capabilities and revoked the body's own. */
  function AtFirst(t: Tables, r: Request, at: int): map<Token, Launch> {
    var unexpired := Unexpired(t.launches, at);
    if r.newBody then unexpired else WithoutUnclaimed(unexpired, r.bodyId)
  }

  /** A resume that gets as far as its own check for a resume in progress. */
  predicate ChecksAgain(t: Tables, r: Request, at: int) {
    r.token !in AtFirst(t, r, at) && r.operation.Resume? && ResumeRefusal(t.records, r.operation.target, r.name).None?
  }

  /** An open capability is claimed by a hook, cancelled, revoked with its body's others, or dropped as expired. */
  predicate Closes(t: Tables, op: Store.Op, token: Token)
    requires token in t.launches
  {
    var launch := t.launches[token];
    match op
    case OpBind(h, at, writes) =>
      h.token == token && !AlreadyRuns(t, h)
      && (launch.expiresAt < at || (writes >= 1 && CapabilityRefusal(t, h, at).None?))
    case OpCancel(cancelled, body, _) => cancelled == token && body == launch.bodyId
    case OpRevoke(body) => body == launch.bodyId
    case OpReserve(r, at, later) =>
      InvalidRequest(r).None?
      && (launch.expiresAt < at || (!r.newBody && r.bodyId == launch.bodyId)
         || (launch.expiresAt < later && ChecksAgain(t, r, at)))
    case OpExpire(at) => launch.expiresAt < at
    case OpRename(key, name, at) =>
      launch.expiresAt < at && ValidName(name) && key in t.records && t.records[key].state != Tombstoned
    case OpAdopt(key, name, _, _, _, at) =>
      launch.expiresAt < at && (name.Some? ==> ValidName(name.value))
      && key in t.records && t.records[key].state != Tombstoned && !t.records[key].managed
    case OpDestroy(key, at) => launch.expiresAt < at && key in t.records && t.records[key].state == Stopped
    case _ => false
  }

  predicate Grants(t: Tables, op: Store.Op, token: Token, b: BodyId) {
    op.OpReserve? && op.request.token == token && op.request.bodyId == b
      && Reserve(t, op.request, op.at, op.later).outcome == Done
  }

  /** Open before and not taken away, or granted now. */
  predicate OpenAfter(t: Tables, op: Store.Op, token: Token, b: BodyId) {
    (token in Open(t, b) && !Closes(t, op, token)) || Grants(t, op, token, b)
  }

  lemma NewOpens(t: Tables, op: Store.Op, token: Token, b: BodyId)
    requires op.OpReserve? && op.request.operation.New?
    ensures token in Open(Store.Apply(t, op), b) <==> OpenAfter(t, op, token, b)
  {
    var r := op.request;
    PublishOpens(t.(launches := AtFirst(t, r, op.at)), r, op.at, token, b);
    hide Publish;
  }

  lemma AtFirstOpens(t: Tables, r: Request, at: int, later: int, token: Token, b: BodyId)
    ensures var open := AtFirst(t, r, at);
            && (token in Open(t.(launches := open), b)
                <==> token in Open(t, b) && t.launches[token].expiresAt >= at && (r.newBody || r.bodyId != b))
            && (token in Open(t.(launches := Unexpired(open, later)), b)
                <==> token in Open(t.(launches := open), b) && t.launches[token].expiresAt >= later)
  {}

  lemma ResumeOpens(t: Tables, op: Store.Op, token: Token, b: BodyId)
    requires op.OpReserve? && op.request.operation.Resume?
    ensures token in Open(Store.Apply(t, op), b) <==> OpenAfter(t, op, token, b)
  {
    var r := op.request;
    var open := AtFirst(t, r, op.at);
    AtFirstOpens(t, r, op.at, op.later, token, b);
    PublishOpens(t.(launches := Unexpired(open, op.later)), r, op.at, token, b);
    hide Publish, Unexpired, WithoutUnclaimed, ResumeTargets;
  }

  lemma PublishOpens(t: Tables, r: Request, at: int, token: Token, b: BodyId)
    ensures Publish(t, r, at).outcome != Done ==> Publish(t, r, at).tables == t
    ensures Publish(t, r, at).outcome == Done ==>
              (token in Open(Publish(t, r, at).tables, b) <==>
                if token == r.token then r.bodyId == b else token in Open(t, b))
  {}

  lemma BindOpens(t: Tables, op: Store.Op, token: Token, b: BodyId)
    requires op.OpBind?
    ensures token in Open(Store.Apply(t, op), b) <==> OpenAfter(t, op, token, b)
  {}

  lemma DroppingOpens(t: Tables, op: Store.Op, token: Token, b: BodyId)
    requires op.OpRename? || op.OpAdopt? || op.OpDestroy?
    ensures token in Open(Store.Apply(t, op), b) <==> OpenAfter(t, op, token, b)
  {}

  /** Which capabilities are open after an operation, for every operation of the store. */
  lemma OpenAfterIff(t: Tables, op: Store.Op, token: Token, b: BodyId)
    ensures token in Open(Store.Apply(t, op), b) <==> OpenAfter(t, op, token, b)
  {
    hide Bind, Reserve, Rename, Adopt, Destroy;
    if op.OpReserve? {
      if op.request.operation.New? { NewOpens(t, op, token, b); } else { ResumeOpens(t, op, token, b); }
    }
    else if op.OpBind? { BindOpens(t, op, token, b); }
    else if op.OpRename? || op.OpAdopt? || op.OpDestroy? { DroppingOpens(t, op, token, b); }
  }

  // ---- the operation of each step ----

  function OperationOf(w: World, a: Action): Option<Store.Op>
    requires CanHappen(w, a)
  {
    match a
    case MakesLane(b, name, project, cwd, at) => Some(Store.OpCreateLane(b, name, project, cwd, at))
    case OnStore(op) => Some(op)
    case Happens(b, e) =>
      var s := w.bodies[b];
      if ChangesLane(e) then Some(Store.OpTransition(b, ChangeOf(s, e), e.at))
      else match e
        case Admit(c, provider, at) => Some(Store.OpTransition(b, Admission(s.controllers[c].lane, provider), at))
        case ReserveToken(c, r, at, later) => Some(Store.OpReserve(r, at, later))
        case NoteForeground(c, at) =>
          Some(Store.OpForeground(b, s.controllers[c].lane.generation, s.controllers[c].phase.group, at))
        case NoteBusy(c, at) =>
          Some(Store.OpForeground(b, s.controllers[c].lane.generation, s.controllers[c].phase.group, at))
        case WithdrawToken(c) =>
          var reserved := s.controllers[c].phase.reserved;
          if reserved.Some? then Some(Store.OpCancel(reserved.value, b, false)) else None
        case RevokeTokens(c) => Some(Store.OpRevoke(b))
        case HookFires(g, key, project, at, writes) =>
          Some(Store.OpBind(Hook(s.agents[g].token, key, b, project), at, writes))
        case _ => None
  }

  lemma TouchingPerforms(w: World, b: BodyId, e: Event)
    requires CanHappen(w, Happens(b, e)) && Touches(e)
    ensures var op := OperationOf(w, Happens(b, e));
            Then(w, Happens(b, e)).tables == if op.Some? then Store.Apply(w.tables, op.value) else w.tables
  {
    hide Reserve, Bind, Cancel, Revoke, RecordForeground;
  }

  /** Every step performs this operation on the tables, or none. */
  lemma Performs(w: World, a: Action)
    requires CanHappen(w, a)
    ensures Then(w, a).tables == if OperationOf(w, a).Some? then Store.Apply(w.tables, OperationOf(w, a).value)
            else w.tables
  {
    hide After, Enabled, ChangeOf, Reserve, Bind, Cancel, Revoke, RecordForeground, CreateLane;
    if a.Happens? {
      var b, e := a.b, a.e;
      if ChangesLane(e) {
        ChangeOfIs(w.tables, b, w.bodies[b], e);
      } else if Touches(e) {
        TouchingPerforms(w, b, e);
      } else {
        TablesStay(w.tables, b, w.bodies[b], e);
      }
    }
  }

  // ---- capabilities over runs ----

  /** Step `l` takes the capability away. */
  predicate ClosedAt(ws: seq<World>, actions: seq<Action>, l: nat, token: Token) {
    && l < |actions| && l < |ws| && CanHappen(ws[l], actions[l]) && token in ws[l].tables.launches
    && OperationOf(ws[l], actions[l]).Some? && Closes(ws[l].tables, OperationOf(ws[l], actions[l]).value, token)
  }

  lemma OnlyDispatchReserves(w: World, a: Action)
    requires CanHappen(w, a) && OperationOf(w, a).Some? && OperationOf(w, a).value.OpReserve?
    ensures a.Happens? && a.e.ReserveToken? && a.b in w.bodies && a.e.c in w.bodies[a.b].controllers
    ensures OperationOf(w, a).value == Store.OpReserve(a.e.request, a.e.at, a.e.later) && a.e.request.bodyId == a.b
  {}

  /** One step: what was open and is not taken away stays open, and what a dispatch reserves is added. */
  lemma OpenStep(ws: seq<World>, actions: seq<Action>, l: nat, b: BodyId, token: Token)
    requires IsRun(ws, actions) && l < |actions|
    ensures token in Open(ws[l + 1].tables, b) <==>
              (token in Open(ws[l].tables, b) && !ClosedAt(ws, actions, l, token))
              || exists g :: Reserves(ws, actions, l, b, g, token)
  {
    hide Then, CanHappen, OperationOf, Store.Apply, Closes, Reserve;
    assert Taken(ws, actions, l);
    var w, a := ws[l], actions[l];
    Performs(w, a);
    if OperationOf(w, a).Some? {
      var op := OperationOf(w, a).value;
      OpenAfterIff(w.tables, op, token, b);
      if Grants(w.tables, op, token, b) {
        OnlyDispatchReserves(w, a);
        assert Reserves(ws, actions, l, b, w.bodies[b].controllers[a.e.c].lane.generation, token);
      }
    }
    if g :| Reserves(ws, actions, l, b, g, token) { DispatchGrants(w, a); }
  }

  lemma DispatchGrants(w: World, a: Action)
    requires CanHappen(w, a) && a.Happens? && a.e.ReserveToken?
    ensures OperationOf(w, a) == Some(Store.OpReserve(a.e.request, a.e.at, a.e.later)) && a.e.request.bodyId == a.b
  {}

  /** A dispatch reserved the capability for this generation at step `j`, and no step since took it away. */
  ghost predicate Remains(ws: seq<World>, actions: seq<Action>, j: nat, i: nat, b: BodyId, generation: nat,
                          token: Token) {
    j < i && Reserves(ws, actions, j, b, generation, token) && forall l | j < l < i :: !ClosedAt(ws, actions, l, token)
  }

  /** After a revocation, exactly those capabilities are open that were reserved since and not taken away again. */
  lemma {:induction false} OpenIffReservedSince(ws: seq<World>, actions: seq<Action>, r: nat, i: nat, b: BodyId,
                                                token: Token)
    requires IsRun(ws, actions) && Of(actions, r, b) && actions[r].e.RevokeTokens? && r < i < |ws|
    ensures token in Open(ws[i].tables, b) <==> exists j, g :: r < j && Remains(ws, actions, j, i, b, g, token)
  {
    hide Reserves, ClosedAt, Open;
    if i == r + 1 {
      RevokingClosesAll(ws, actions, r, b);
    } else {
      OpenIffReservedSince(ws, actions, r, i - 1, b, token);
      var l := i - 1;
      OpenStep(ws, actions, l, b, token);
      forall j, g | r < j && Remains(ws, actions, j, i, b, g, token) ensures token in Open(ws[i].tables, b) {
        if j < i - 1 { assert Remains(ws, actions, j, i - 1, b, g, token); }
      }
      if token in Open(ws[i].tables, b) {
        if g :| Reserves(ws, actions, l, b, g, token) {
          assert Remains(ws, actions, l, i, b, g, token);
        } else {
          var j, g :| r < j && Remains(ws, actions, j, i - 1, b, g, token);
          assert Remains(ws, actions, j, i, b, g, token);
        }
      }
    }
  }

  lemma RevokingClosesAll(ws: seq<World>, actions: seq<Action>, r: nat, b: BodyId)
    requires IsRun(ws, actions) && Of(actions, r, b) && actions[r].e.RevokeTokens?
    ensures Open(ws[r + 1].tables, b) == {}
  {
    assert Taken(ws, actions, r);
    WithdrawCloses(ws[r].tables, b, ws[r].bodies[b], actions[r].e);
  }

  // ---- what a recovery has revoked ----

  predicate HasRevoked(p: Phase) {
    p.Revoked? || p.Reread?
  }

  lemma MovesRevokeFirst(t: Tables, b: BodyId, s: Body, e: Event, c: Cid)
    requires Enabled(t, b, s, e) && MovesOnly(e) && c in After(t, b, s, e).body.controllers
    requires HasRevoked(After(t, b, s, e).body.controllers[c].phase)
    ensures e == RevokeTokens(c) || (c in s.controllers && HasRevoked(s.controllers[c].phase))
  {
    MoveShape(t, b, s, e);
    if e.ReadLane? { ReadLaneLooks(t, b, s, e); } else { MoveAllowed(t, b, s, e); }
    hide After, Enabled;
  }

  lemma ReadLaneLooks(t: Tables, b: BodyId, s: Body, e: Event)
    requires Enabled(t, b, s, e) && e.ReadLane?
    ensures After(t, b, s, e).body == Grips(s, e.c, t.lanes[b], Looking)
  {
  }

  lemma OthersRevokeFirst(t: Tables, b: BodyId, s: Body, e: Event, c: Cid)
    requires Enabled(t, b, s, e) && !MovesOnly(e) && !ChangesLane(e) && c in After(t, b, s, e).body.controllers
    requires HasRevoked(After(t, b, s, e).body.controllers[c].phase)
    ensures c in s.controllers && HasRevoked(s.controllers[c].phase)
  {
    hide Bind, Reserve, Cancel, Revoke, Transition, RecordForeground, Over;
  }

  lemma RevokesFirst(t: Tables, b: BodyId, s: Body, e: Event, c: Cid)
    requires Enabled(t, b, s, e) && c in After(t, b, s, e).body.controllers
    requires HasRevoked(After(t, b, s, e).body.controllers[c].phase)
    ensures e == RevokeTokens(c) || (c in s.controllers && HasRevoked(s.controllers[c].phase))
  {
    hide After, Enabled, ChangeOf;
    if MovesOnly(e) {
      MovesRevokeFirst(t, b, s, e, c);
    } else if ChangesLane(e) {
      ChangeOfIs(t, b, s, e);
    } else {
      OthersRevokeFirst(t, b, s, e, c);
    }
  }

  lemma {:induction false} RevokedEarlier(ws: seq<World>, actions: seq<Action>, i: nat, b: BodyId, c: Cid)
    returns (r: nat)
    requires IsRun(ws, actions) && i < |ws| && b in ws[i].bodies && c in ws[i].bodies[b].controllers
    requires HasRevoked(ws[i].bodies[b].controllers[c].phase)
    ensures r < i && Of(actions, r, b) && actions[r].e == RevokeTokens(c)
  {
    hide Inv, After, Enabled, Precedes;
    assert i > 0;
    assert Taken(ws, actions, i - 1);
    assert b in ws[i - 1].bodies;
    Meanwhile(ws, actions, i - 1, b);
    if Of(actions, i - 1, b) {
      RevokesFirst(ws[i - 1].tables, b, ws[i - 1].bodies[b], actions[i - 1].e, c);
    }
    if Of(actions, i - 1, b) && actions[i - 1].e == RevokeTokens(c) {
      r := i - 1;
    } else {
      r := RevokedEarlier(ws, actions, i - 1, b, c);
    }
  }

  /**
   When a recovery settles a generation, it revoked the body's capabilities before; and exactly those are open that a
   dispatch of another generation reserved since then and that no step took away again.
   */
  lemma OpenWhenSettled(ws: seq<World>, actions: seq<Action>, i: nat, b: BodyId, token: Token) returns (r: nat)
    requires IsRun(ws, actions) && Of(actions, i, b) && actions[i].e.Conclude?
    requires b in ws[i].tables.lanes && b in ws[i + 1].tables.lanes
             && ws[i + 1].tables.lanes[b] != ws[i].tables.lanes[b]
    ensures r < i && Of(actions, r, b) && actions[r].e == RevokeTokens(actions[i].e.c)
    ensures token in Open(ws[i + 1].tables, b) <==>
              exists j, g :: r < j && g != ws[i].tables.lanes[b].generation && Remains(ws, actions, j, i, b, g, token)
  {
    hide Reserves, Precedes, Inv, ClosedAt, Open, Remains;
    EveryWorld(ws, actions, i);
    assert Taken(ws, actions, i);
    SettlingLeavesNoToken(ws, actions, i, b);
    ConcludeShape(ws[i].tables, b, ws[i].bodies[b], actions[i].e);
    r := RevokedEarlier(ws, actions, i, b, actions[i].e.c);
    OpenIffReservedSince(ws, actions, r, i, b, token);
    SettlingOpens(ws, actions, i, b);
    forall j, g | r < j && Remains(ws, actions, j, i, b, g, token) && token in Open(ws[i].tables, b)
      ensures g != ws[i].tables.lanes[b].generation
    {
      RemainsReserves(ws, actions, j, i, b, g, token);
    }
  }

  lemma SettlingOpens(ws: seq<World>, actions: seq<Action>, i: nat, b: BodyId)
    requires IsRun(ws, actions) && Of(actions, i, b) && actions[i].e.Conclude?
    ensures Open(ws[i + 1].tables, b) == Open(ws[i].tables, b)
  {
    assert Taken(ws, actions, i);
    ChangeOfIs(ws[i].tables, b, ws[i].bodies[b], actions[i].e);
    hide After;
  }

  lemma RemainsReserves(ws: seq<World>, actions: seq<Action>, j: nat, i: nat, b: BodyId, g: nat, token: Token)
    requires Remains(ws, actions, j, i, b, g, token)
    ensures j < i && Reserves(ws, actions, j, b, g, token)
  {}
}

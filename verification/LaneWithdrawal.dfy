/**
 A dispatch that fails before its launcher is typed takes back the capability that it reserved, over whole runs and
 whatever the other controllers do.
 */
module LaneWithdrawal {
  import opened Wrappers
  import opened SessionTables
  import opened LaneProtocol
  import opened LaneSafety
  import opened LaneRuns
  import opened LaneTheorems
  import opened LaneCapabilities
  import Store = SessionInvariants

  /** The phases of a dispatch before its launcher is typed. */
  predicate Accountable(p: Phase) {
    p.Admitted? || p.Holding? || p.Scripted? || p.Abandoning? || p.Unscripted? || p.Withdrawn?
  }

  /**
   A dispatch knows the one capability that was ever reserved for its generation; when it has withdrawn, that one is not
   open.
   */
  ghost predicate Accounts(s: Body, open: set<Token>, ct: Controller) {
    forall p | p in s.issued && p.0 == ct.lane.generation ::
      match ct.phase
      case Admitted => false
      case Holding(token) => p.1 == token
      case Scripted(token) => p.1 == token
      case Abandoning(reserved) => reserved == Some(p.1)
      case Unscripted(reserved) => reserved == Some(p.1)
      case Withdrawn => p.1 !in open
      case _ => true
  }

  ghost predicate AllAccount(s: Body, open: set<Token>) {
    forall c | c in s.controllers :: Accounts(s, open, s.controllers[c])
  }

  lemma FewerOpenAccount(s: Body, s': Body, open: set<Token>, open': set<Token>)
    requires AllAccount(s, open) && open' <= open && s'.issued == s.issued
    requires forall c | c in s'.controllers && Accountable(s'.controllers[c].phase) ::
               c in s.controllers && s'.controllers[c] == s.controllers[c]
    ensures AllAccount(s', open')
  {
    forall c | c in s'.controllers ensures Accounts(s', open', s'.controllers[c]) {
      if Accountable(s'.controllers[c].phase) { assert Accounts(s, open, s.controllers[c]); }
    }
  }

  // ---- events that are not about capabilities ----

  /** The events after which a dispatch accounts for another state of its capability. */
  predicate Handles(e: Event) {
    e.Admit? || e.ReserveToken? || e.WriteLauncher? || e.FailEarly? || e.FindBusy? || e.RemoveLauncher?
        || e.WithdrawToken?
  }

  lemma PlainSpares(t: Tables, b: BodyId, s: Body, e: Event, c: Cid)
    requires Enabled(t, b, s, e) && !Handles(e) && !MovesOnly(e) && !ChangesLane(e)
    ensures After(t, b, s, e).body.issued == s.issued
    ensures c in After(t, b, s, e).body.controllers && Accountable(After(t, b, s, e).body.controllers[c].phase) ==>
              c in s.controllers && After(t, b, s, e).body.controllers[c] == s.controllers[c]
  {
    hide Bind, Reserve, Cancel, Revoke, Transition, RecordForeground, Over;
  }

  lemma MoveSpares(t: Tables, b: BodyId, s: Body, e: Event, c: Cid)
    requires Enabled(t, b, s, e) && !Handles(e) && MovesOnly(e)
    ensures After(t, b, s, e).body.issued == s.issued
    ensures c in After(t, b, s, e).body.controllers && Accountable(After(t, b, s, e).body.controllers[c].phase) ==>
              c in s.controllers && After(t, b, s, e).body.controllers[c] == s.controllers[c]
  {
    MoveShape(t, b, s, e);
    if e.ReadLane? { ReadLaneLooks(t, b, s, e); } else { MoveAllowed(t, b, s, e); }
    OtherMove(t, b, s, e);
    hide After, Enabled;
  }

  lemma OtherMove(t: Tables, b: BodyId, s: Body, e: Event)
    requires Enabled(t, b, s, e) && !Handles(e) && MovesOnly(e)
    ensures e.c in After(t, b, s, e).body.controllers && !Accountable(After(t, b, s, e).body.controllers[e.c].phase)
  {
    hide Bind, Reserve, Cancel, Revoke, Transition, RecordForeground;
  }

  lemma OthersSpare(t: Tables, b: BodyId, s: Body, e: Event, c: Cid)
    requires Enabled(t, b, s, e) && !Handles(e)
    ensures After(t, b, s, e).body.issued == s.issued
    ensures c in After(t, b, s, e).body.controllers && Accountable(After(t, b, s, e).body.controllers[c].phase) ==>
              c in s.controllers && After(t, b, s, e).body.controllers[c] == s.controllers[c]
  {
    hide After, Enabled, ChangeOf;
    if MovesOnly(e) {
      MoveSpares(t, b, s, e, c);
    } else if ChangesLane(e) {
      ChangeOfIs(t, b, s, e);
    } else {
      PlainSpares(t, b, s, e, c);
    }
  }

  // ---- events of a dispatch ----

  /** A dispatch goes on to a phase that accounts for the same capability. */
  predicate SameCapability(p: Phase, q: Phase) {
    match q
    case Scripted(token) => p == Holding(token)
    case Abandoning(reserved) =>
      (p.Admitted? && reserved.None?) || (p.Holding? && reserved == Some(p.token))
      || (p.Scripted? && reserved == Some(p.token))
    case Unscripted(reserved) => p == Abandoning(reserved)
    case _ => false
  }

  lemma SameAccounts(s: Body, s': Body, open: set<Token>, open': set<Token>, c: Cid, q: Phase)
    requires AllAccount(s, open) && open' <= open && s'.issued == s.issued && c in s.controllers
    requires s'.controllers == s.controllers[c := s.controllers[c].(phase := q)]
        && SameCapability(s.controllers[c].phase, q)
    ensures AllAccount(s', open')
  {
    forall d | d in s'.controllers ensures Accounts(s', open', s'.controllers[d]) {
      assert Accounts(s, open, s.controllers[d]);
    }
  }

  lemma HandingOn(t: Tables, b: BodyId, s: Body, e: Event)
    requires Enabled(t, b, s, e) && (e.WriteLauncher? || e.FailEarly? || e.FindBusy? || e.RemoveLauncher?)
    ensures var n := After(t, b, s, e);
            && n.tables == t && n.body.issued == s.issued && e.c in s.controllers && e.c in n.body.controllers
            && var q := n.body.controllers[e.c].phase;
               && n.body.controllers == s.controllers[e.c := s.controllers[e.c].(phase := q)]
               && SameCapability(s.controllers[e.c].phase, q)
  {
    hide Bind, Reserve, Cancel, Revoke, Transition, RecordForeground;
  }

  lemma HandlingAccounts(t: Tables, b: BodyId, s: Body, e: Event)
    requires Enabled(t, b, s, e) && (e.WriteLauncher? || e.FailEarly? || e.FindBusy? || e.RemoveLauncher?)
    requires AllAccount(s, Open(t, b))
    ensures AllAccount(After(t, b, s, e).body, Open(After(t, b, s, e).tables, b))
  {
    hide After, Enabled, Open;
    HandingOn(t, b, s, e);
    var n := After(t, b, s, e);
    SameAccounts(s, n.body, Open(t, b), Open(t, b), e.c, n.body.controllers[e.c].phase);
  }

  /** What is cancelled is not open afterwards. */
  lemma CancelledIsClosed(t: Tables, token: Token, b: BodyId)
    ensures token !in Open(Cancel(t, token, b, false).tables, b)
  {}

  lemma WithdrawingAccounts(t: Tables, b: BodyId, s: Body, e: Event)
    requires Enabled(t, b, s, e) && e.WithdrawToken? && AllAccount(s, Open(t, b))
    ensures AllAccount(After(t, b, s, e).body, Open(After(t, b, s, e).tables, b))
  {
    hide Cancel, Open;
    var c, n := e.c, After(t, b, s, e);
    var reserved := s.controllers[c].phase.reserved;
    if reserved.Some? {
      CancelEffect(t, reserved.value, b, false);
      CancelledIsClosed(t, reserved.value, b);
    }
    forall d | d in n.body.controllers ensures Accounts(n.body, Open(n.tables, b), n.body.controllers[d]) {
      assert Accounts(s, Open(t, b), s.controllers[d]);
    }
  }

  lemma AdmitShape(t: Tables, b: BodyId, s: Body, e: Event)
    requires Enabled(t, b, s, e) && e.Admit?
    ensures var n := After(t, b, s, e);
            && Open(n.tables, b) == Open(t, b) && n.body.issued == s.issued
            && (forall d | d in n.body.controllers && d != e.c ::
                d in s.controllers && n.body.controllers[d] == s.controllers[d])
            && (e.c in n.body.controllers ==> n.body.controllers[e.c].lane.generation == t.lanes[b].generation + 1)
  {
    assert After(t, b, s, e).tables.launches == t.launches;
  }

  lemma AdmittingAccounts(t: Tables, b: BodyId, s: Body, e: Event)
    requires Inv(t, b, s) && Enabled(t, b, s, e) && e.Admit? && AllAccount(s, Open(t, b))
    ensures AllAccount(After(t, b, s, e).body, Open(After(t, b, s, e).tables, b))
  {
    AdmitShape(t, b, s, e);
    hide After, Enabled, Open, Exclusive, ControllerInv;
    var n := After(t, b, s, e);
    forall d | d in n.body.controllers ensures Accounts(n.body, Open(t, b), n.body.controllers[d]) {
      if d != e.c { assert Accounts(s, Open(t, b), s.controllers[d]); }
    }
  }

  lemma ReservedAccounts(s: Body, open: set<Token>, open': set<Token>, c: Cid, token: Token)
    requires AllAccount(s, open) && At(s, c, Admitted) && !Issued(s, token) && open' <= open + {token} && Exclusive(s)
    ensures AllAccount(Move(s, c, Holding(token)).(issued := s.issued + {(s.controllers[c].lane.generation, token)}),
        open')
  {
    var s' := Move(s, c, Holding(token)).(issued := s.issued + {(s.controllers[c].lane.generation, token)});
    assert Accounts(s, open, s.controllers[c]);
    forall d | d in s'.controllers ensures Accounts(s', open', s'.controllers[d]) {
      assert Accounts(s, open, s.controllers[d]);
      if d != c && Dispatches(s.controllers[d].phase) {
        assert s.controllers[d].lane.generation != s.controllers[c].lane.generation;
      }
    }
  }

  lemma ReservingAccounts(t: Tables, b: BodyId, s: Body, e: Event)
    requires Inv(t, b, s) && Enabled(t, b, s, e) && e.ReserveToken? && AllAccount(s, Open(t, b))
    ensures AllAccount(After(t, b, s, e).body, Open(After(t, b, s, e).tables, b))
  {
    hide Reserve, Open, AllAccount;
    var n := After(t, b, s, e);
    ReserveEffect(t, e.request, e.at, e.later);
    if Reserve(t, e.request, e.at, e.later).outcome == Done {
      ReservedAccounts(s, Open(t, b), Open(n.tables, b), e.c, e.request.token);
    } else {
      SameAccounts(s, n.body, Open(t, b), Open(n.tables, b), e.c, Abandoning(None));
    }
  }

  // ---- every step ----

  lemma OpenFalls(t: Tables, b: BodyId, s: Body, e: Event)
    requires Enabled(t, b, s, e) && !Handles(e)
    ensures Open(After(t, b, s, e).tables, b) <= Open(t, b)
  {
    hide After, Enabled, Open, ChangeOf, Closes;
    if MovesOnly(e) {
      OpenOnlyCloses(t, b, s, e);
    } else if ChangesLane(e) {
      ChangeOfIs(t, b, s, e);
      ChangeOpens(t, b, ChangeOf(s, e), e.at);
    } else if e.NoteForeground? || e.NoteBusy? {
      NotingOpens(t, b, s, e);
    } else if e.HookFires? {
      HookOpens(t, b, s, e);
    } else {
      TablesStay(t, b, s, e);
    }
  }

  lemma ChangeOpens(t: Tables, b: BodyId, change: Change, at: int)
    ensures Open(Transition(t, b, change, at).tables, b) == Open(t, b)
  {
    assert Transition(t, b, change, at).tables.launches == t.launches;
  }

  lemma NotingOpens(t: Tables, b: BodyId, s: Body, e: Event)
    requires Enabled(t, b, s, e) && (e.NoteForeground? || e.NoteBusy?)
    ensures Open(After(t, b, s, e).tables, b) == Open(t, b)
  {
    assert After(t, b, s, e).tables.launches == t.launches;
  }

  lemma HookOpens(t: Tables, b: BodyId, s: Body, e: Event)
    requires Enabled(t, b, s, e) && e.HookFires?
    ensures Open(After(t, b, s, e).tables, b) <= Open(t, b)
  {
    hide Bind, Open;
    BindEffect(t, Hook(s.agents[e.generation].token, e.key, b, e.project), e.at, e.writes);
  }

  lemma EventAccounts(t: Tables, b: BodyId, s: Body, e: Event)
    requires Inv(t, b, s) && Enabled(t, b, s, e) && AllAccount(s, Open(t, b))
    ensures AllAccount(After(t, b, s, e).body, Open(After(t, b, s, e).tables, b))
  {
    hide After, Enabled, AllAccount, Open, Inv;
    if e.Admit? {
      AdmittingAccounts(t, b, s, e);
    } else if e.ReserveToken? {
      ReservingAccounts(t, b, s, e);
    } else if e.WithdrawToken? {
      WithdrawingAccounts(t, b, s, e);
    } else if Handles(e) {
      HandlingAccounts(t, b, s, e);
    } else {
      var n := After(t, b, s, e);
      OpenFalls(t, b, s, e);
      forall c | c in n.body.controllers && Accountable(n.body.controllers[c].phase)
        ensures c in s.controllers && n.body.controllers[c] == s.controllers[c] {
        OthersSpare(t, b, s, e, c);
      }
      OthersSpare(t, b, s, e, 0);
      FewerOpenAccount(s, n.body, Open(t, b), Open(n.tables, b));
    }
  }

  // ---- over runs ----

  lemma StoreFalls(t: Tables, op: Store.Op, b: BodyId)
    requires StoreOnly(op)
    ensures Open(Store.Apply(t, op), b) <= Open(t, b)
  {
    hide Store.Apply;
    StoreFrame(t, op);
  }

  lemma MakingFalls(w: World, a: Action, b: BodyId)
    requires CanHappen(w, a) && a.MakesLane? && b in Then(w, a).bodies
    ensures Open(Then(w, a).tables, b) == Open(w.tables, b)
    ensures if b in w.bodies then Then(w, a).bodies[b] == w.bodies[b] else Then(w, a).bodies[b] == NewBody
  {
    assert Then(w, a).tables.launches == w.tables.launches;
  }

  lemma ElsewhereAccounts(w: World, a: Action, b: BodyId)
    requires WorldInv(w) && CanHappen(w, a) && b in Then(w, a).bodies && !(a.Happens? && a.b == b)
    requires b in w.bodies ==> AllAccount(w.bodies[b], Open(w.tables, b))
    ensures AllAccount(Then(w, a).bodies[b], Open(Then(w, a).tables, b))
  {
    hide AllAccount, Open, After, Enabled, Store.Consistent, Store.Apply, Inv, CreateLane;
    match a
    case MakesLane(_, _, _, _, _) =>
      MakingFalls(w, a, b);
      if b !in w.bodies { NewAccounts(Open(w.tables, b)); }
    case OnStore(op) =>
      StoreFalls(w.tables, op, b);
      FewerOpenAccount(w.bodies[b], w.bodies[b], Open(w.tables, b), Open(Then(w, a).tables, b));
    case Happens(x, e) =>
      EventPerformsOne(w.tables, x, w.bodies[x], e);
      OtherBodies(w.tables, x, After(w.tables, x, w.bodies[x], e).tables);
      FewerOpenAccount(w.bodies[b], w.bodies[b], Open(w.tables, b), Open(Then(w, a).tables, b));
  }

  lemma NewAccounts(open: set<Token>)
    ensures AllAccount(NewBody, open)
  {}

  lemma {:induction false} EveryDispatchAccounts(ws: seq<World>, actions: seq<Action>, i: nat, b: BodyId)
    requires IsRun(ws, actions) && i < |ws| && b in ws[i].bodies
    ensures AllAccount(ws[i].bodies[b], Open(ws[i].tables, b))
  {
    hide AllAccount, Open, After, Enabled, Inv;
    assert i > 0;
    var l := i - 1;
    assert Taken(ws, actions, l);
    EveryWorld(ws, actions, l);
    if b in ws[l].bodies { EveryDispatchAccounts(ws, actions, l, b); }
    if Of(actions, l, b) {
      assert Inv(ws[l].tables, b, ws[l].bodies[b]);
      EventAccounts(ws[l].tables, b, ws[l].bodies[b], actions[l].e);
    } else {
      ElsewhereAccounts(ws[l], actions[l], b);
    }
  }

  /**
   When a dispatch gives up because it failed before its launcher was typed, no capability that was ever reserved for
   its generation is open.
   */
  lemma GivingUpLeavesNoToken(ws: seq<World>, actions: seq<Action>, i: nat, b: BodyId, j: nat, token: Token)
    requires IsRun(ws, actions) && Of(actions, i, b) && actions[i].e.GiveUp? && j < i
    ensures b in ws[i].bodies && actions[i].e.c in ws[i].bodies[b].controllers
    ensures Reserves(ws, actions, j, b, ws[i].bodies[b].controllers[actions[i].e.c].lane.generation, token) ==>
              token !in Open(ws[i + 1].tables, b)
  {
    hide Open, Inv, Reserves;
    assert Taken(ws, actions, i);
    var c := actions[i].e.c;
    var g := ws[i].bodies[b].controllers[c].lane.generation;
    if Reserves(ws, actions, j, b, g, token) {
      ReservedIsIssued(ws, actions, j, i, b, g, token);
      EveryDispatchAccounts(ws, actions, i, b);
      assert Accounts(ws[i].bodies[b], Open(ws[i].tables, b), ws[i].bodies[b].controllers[c]);
      GivingUpOpens(ws[i].tables, b, ws[i].bodies[b], actions[i].e);
    }
  }

  lemma GivingUpOpens(t: Tables, b: BodyId, s: Body, e: Event)
    requires Enabled(t, b, s, e) && e.GiveUp?
    ensures Open(After(t, b, s, e).tables, b) == Open(t, b)
  {
    hide ChangeOf, After, Enabled;
    ChangeOfIs(t, b, s, e);
    ChangeOpens(t, b, ChangeOf(s, e), e.at);
  }
}

/**
 The safety of the lane protocol over whole runs: every event keeps the
 invariant of the body it happens to, and of every other body.
 */
module LaneSafety {
  import opened Wrappers
  import opened SessionTables
  import opened LaneProtocol

  // ---- what the store operations do to lanes and open capabilities ----

  lemma ReserveEffect(t: Tables, r: Request, at: int, later: int)
    ensures Reserve(t, r, at, later).tables.lanes == t.lanes
    ensures forall b | b != r.bodyId :: Open(Reserve(t, r, at, later).tables, b) <= Open(t, b)
    ensures Open(Reserve(t, r, at, later).tables, r.bodyId)
         <= Open(t, r.bodyId) + (if Reserve(t, r, at, later).outcome == Done then {r.token} else {})
  {
    var step := Reserve(t, r, at, later);
    assert step.tables.lanes == t.lanes && ReservesOne(t, r, at, step);
  }

  predicate ReservesOne(t: Tables, r: Request, at: int, step: Step) {
    forall token | token in step.tables.launches ::
      (token in t.launches && step.tables.launches[token] == t.launches[token])
      || (step.outcome == Done && token == r.token && step.tables.launches[token] == ReservedLaunch(r, at))
  }

  lemma BindEffect(t: Tables, h: Hook, at: int, writes: nat)
    ensures var t' := Bind(t, h, at, writes).tables;
            t'.lanes == t.lanes
              || (CanFinalize(t.lanes, h.bodyId, h.key) && t'.lanes == Finalized(t.lanes, h.bodyId, h.key, at))
    ensures forall b :: Open(Bind(t, h, at, writes).tables, b) <= Open(t, b)
  {
  }

  lemma CancelEffect(t: Tables, token: Token, body: BodyId, stopped: bool)
    ensures Cancel(t, token, body, stopped).tables.lanes == t.lanes
    ensures forall b :: Open(Cancel(t, token, body, stopped).tables, b) <= Open(t, b)
  {
  }

  lemma RevokeEffect(t: Tables, body: BodyId)
    ensures Open(Revoke(t, body), body) == {}
    ensures forall b :: Open(Revoke(t, body), b) <= Open(t, b)
  {
  }

  // ---- one controller moves, nothing else ----

  predicate Unwritten(p: Phase) {
    p.Admitted? || p.Holding?
  }

  /** Controller `c` of `s` may become `ct`: it dispatches, writes or recovers only what it did before. */
  predicate MayBecome(s: Body, c: Cid, ct: Controller) {
    var same := c in s.controllers && s.controllers[c].lane.generation == ct.lane.generation;
    && (Unwritten(ct.phase) ==> same && Unwritten(s.controllers[c].phase))
    && (Dispatches(ct.phase) ==> same && Dispatches(s.controllers[c].phase))
    && (Recovers(ct.phase) ==>
          (same && (Dispatches(s.controllers[c].phase) || Recovers(s.controllers[c].phase)))
          || NoDispatch(s, ct.lane.generation))
  }

  lemma ControllerMoves(lane: Lane, s: Body, open: set<Token>, c: Cid, ct: Controller)
    requires BodyInv(lane, s, open) && MayBecome(s, c, ct)
    requires ControllerInv(lane, s, open, ct)
    ensures BodyInv(lane, s.(controllers := s.controllers[c := ct]), open)
  {
    var s' := s.(controllers := s.controllers[c := ct]);
    forall g | Ran(s, g) ensures Ran(s', g) {}
    forall d | d in s'.controllers
      ensures ControllerInv(lane, s', open, s'.controllers[d])
    {
      var was := if d == c then ct else s.controllers[d];
      assert ControllerInv(lane, s, open, was);
    }
    MoveExcludes(s, c, ct);
  }

  lemma MoveExcludes(s: Body, c: Cid, ct: Controller)
    requires Exclusive(s) && MayBecome(s, c, ct)
    ensures Exclusive(s.(controllers := s.controllers[c := ct]))
  {}

  lemma ControllerEnds(lane: Lane, s: Body, open: set<Token>, c: Cid)
    requires BodyInv(lane, s, open)
    ensures BodyInv(lane, Ends(s, c), open)
  {
    var s' := Ends(s, c);
    forall g | Ran(s, g) ensures Ran(s', g) {}
    forall d | d in s'.controllers
      ensures ControllerInv(lane, s', open, s'.controllers[d])
    {
      var was := s.controllers[d];
      assert ControllerInv(lane, s, open, was);
    }
  }

  lemma FewerOpen(lane: Lane, s: Body, open: set<Token>, open': set<Token>)
    requires BodyInv(lane, s, open) && open' <= open
    ensures BodyInv(lane, s, open')
  {
    forall d | d in s.controllers ensures ControllerInv(lane, s, open', s.controllers[d]) {
      assert ControllerInv(lane, s, open, s.controllers[d]);
    }
  }

  /** Whatever the controllers, being misled about a generation asks nothing of them. */
  lemma JudgedKeeps(lane: Lane, s: Body, open: set<Token>, g: nat)
    requires BodyInv(lane, s, open)
    ensures BodyInv(lane, Judged(s, g), open)
  {
    var s' := Judged(s, g);
    forall d | d in s.controllers ensures ControllerInv(lane, s', open, s.controllers[d]) {
      assert ControllerInv(lane, s, open, s.controllers[d]);
    }
  }

  // ---- the terminal changes ----

  lemma FileGoes(lane: Lane, s: Body, open: set<Token>, g: nat)
    requires BodyInv(lane, s, open)
    ensures BodyInv(lane, s.(files := s.files - {g}), open)
  {
    var s' := s.(files := s.files - {g});
    forall x | Ran(s, x) ensures Ran(s', x) {}
    forall d | d in s.controllers
      ensures ControllerInv(lane, s', open, s.controllers[d])
    {
      assert ControllerInv(lane, s, open, s.controllers[d]);
    }
  }

  lemma TypedLineGoes(lane: Lane, s: Body, open: set<Token>, g: nat)
    requires BodyInv(lane, s, open)
    ensures BodyInv(lane, s.(typed := s.typed - {g}), open)
  {
    var s' := s.(typed := s.typed - {g});
    forall x | Ran(s, x) ensures Ran(s', x) {}
    forall d | d in s.controllers
      ensures ControllerInv(lane, s', open, s.controllers[d])
    {
      assert ControllerInv(lane, s, open, s.controllers[d]);
    }
  }

  /** The foreground and the end of processes are no concern of any controller. */
  lemma AgentsEnd(lane: Lane, s: Body, open: set<Token>, agents: map<nat, Agent>, f: Foreground)
    requires BodyInv(lane, s, open) && agents.Keys <= s.agents.Keys
    ensures BodyInv(lane, s.(agents := agents, foreground := f), open)
  {
    var s' := s.(agents := agents, foreground := f);
    forall x | Ran(s, x) ensures Ran(s', x) {}
    forall d | d in s.controllers
      ensures ControllerInv(lane, s', open, s.controllers[d])
    {
      assert ControllerInv(lane, s, open, s.controllers[d]);
    }
  }

  lemma LauncherRuns(lane: Lane, s: Body, open: set<Token>, g: nat, group: int)
    requires BodyInv(lane, s, open) && g in s.typed && g in s.files
    ensures BodyInv(lane,
            s.(files := s.files - {g}, typed := s.typed - {g}, agents := s.agents[g := Agent(s.files[g], group)],
                             foreground := Job(group)), open)
  {
    var s' := s.(files := s.files - {g}, typed := s.typed - {g}, agents := s.agents[g := Agent(s.files[g], group)],
                 foreground := Job(group));
    forall x | Over(s, x) ensures Over(s', x) {}
    forall d | d in s.controllers
      ensures ControllerInv(lane, s', open, s.controllers[d])
    {
      assert ControllerInv(lane, s, open, s.controllers[d]);
    }
  }

  lemma LauncherWritten(lane: Lane, s: Body, open: set<Token>, c: Cid)
    requires BodyInv(lane, s, open) && c in s.controllers && s.controllers[c].phase.Holding?
    ensures var token := s.controllers[c].phase.token;
            BodyInv(lane, Move(s, c, Scripted(token)).(files := s.files[s.controllers[c].lane.generation := token]),
              open)
  {
    var token := s.controllers[c].phase.token;
    var g := s.controllers[c].lane.generation;
    var s' := Move(s, c, Scripted(token)).(files := s.files[g := token]);
    assert ControllerInv(lane, s, open, s.controllers[c]);
    forall x | Ran(s, x) ensures Ran(s', x) && x != g {}
    forall d | d in s'.controllers
      ensures ControllerInv(lane, s', open, s'.controllers[d])
    {
      assert ControllerInv(lane, s, open, s.controllers[d]);
    }
  }

  lemma LauncherTyped(lane: Lane, s: Body, open: set<Token>, c: Cid)
    requires BodyInv(lane, s, open) && c in s.controllers && s.controllers[c].phase.Scripted? && s.foreground == Shell
    ensures BodyInv(lane, Move(s, c, Typed).(typed := s.typed + {s.controllers[c].lane.generation}), open)
  {
    var g := s.controllers[c].lane.generation;
    var s' := Move(s, c, Typed).(typed := s.typed + {g});
    forall x | Ran(s, x) ensures Ran(s', x) {}
    forall d | d in s'.controllers
      ensures ControllerInv(lane, s', open, s'.controllers[d])
    {
      assert ControllerInv(lane, s, open, s.controllers[d]);
    }
  }

  // ---- the lane changes ----

  predicate NoneBeforeTyping(s: Body) {
    forall c | c in s.controllers :: !BeforeTyping(s.controllers[c].phase)
  }

  /** A lane at rest has no process, no launcher and no dispatch in hand. */
  lemma RestingIsQuiet(lane: Lane, s: Body, open: set<Token>)
    requires BodyInv(lane, s, open) && !s.misled && lane.state != Destroyed && !Starting(lane.state)
    ensures NoneBeforeTyping(s)
    ensures !Bindable(lane.state) ==> s.files == map[] && s.agents == map[] && Over(s, lane.generation)
  {
    forall c | c in s.controllers ensures !BeforeTyping(s.controllers[c].phase) {
      assert ControllerInv(lane, s, open, s.controllers[c]);
    }
  }

  lemma LaneLeaves(lane: Lane, lane': Lane, s: Body, open: set<Token>)
    requires BodyInv(lane, s, open) && lane.state != Destroyed
    requires lane'.generation == lane.generation && !Bindable(lane'.state)
    requires lane'.bound.Some? ==> (lane.generation, lane'.bound.value) in s.everBound
    requires s.misled || lane'.state == Destroyed || (Over(s, lane.generation) && NoneBeforeTyping(s))
    ensures BodyInv(lane', s, open)
  {
    forall d | d in s.controllers
      ensures ControllerInv(lane', s, open, s.controllers[d])
    {
      assert ControllerInv(lane, s, open, s.controllers[d]);
    }
  }

  lemma LaneRuns(lane: Lane, lane': Lane, s: Body, open: set<Token>)
    requires BodyInv(lane, s, open) && Bindable(lane.state) && (s.misled || NoneBeforeTyping(s))
    requires lane'.generation == lane.generation && lane'.state == ProviderRunning
    requires lane'.bound == lane.bound || lane.bound.None?
    ensures BodyInv(lane', Remember(s, lane'), open)
  {
    var s' := Remember(s, lane');
    forall x | Ran(s, x) ensures Ran(s', x) {}
    forall d | d in s.controllers
      ensures ControllerInv(lane', s', open, s.controllers[d])
    {
      assert ControllerInv(lane, s, open, s.controllers[d]);
    }
  }

  lemma RememberKnown(lane: Lane, s: Body, open: set<Token>)
    requires BodyInv(lane, s, open)
    ensures Remember(s, lane) == s
  {
    if lane.bound.Some? { assert s.everBound + {(lane.generation, lane.bound.value)} == s.everBound; }
  }

  lemma LaneAdmits(lane: Lane, lane': Lane, s: Body, open: set<Token>, c: Cid)
    requires BodyInv(lane, s, open) && Ready(lane.state)
    requires c in s.controllers && s.controllers[c].phase == Chosen
    requires lane'.generation == lane.generation + 1 && Starting(lane'.state) && lane'.bound.None?
    ensures BodyInv(lane', Grips(s, c, lane', Admitted), open)
  {
    var s' := Grips(s, c, lane', Admitted);
    if !s.misled { RestingIsQuiet(lane, s, open); }
    forall x | 0 <= x <= lane.generation && Ran(s, x) ensures Ran(s', x) {}
    forall d | d in s'.controllers
      ensures ControllerInv(lane', s', open, s'.controllers[d])
    {
      if d != c {
        assert ControllerInv(lane, s, open, s.controllers[d]);
      }
    }
  }

  // ---- every event keeps the invariant of its body ----

  /** The events that only move one controller (and may close open capabilities). */
  predicate MovesOnly(e: Event) {
    e.ReadLane? || e.Choose? || e.FailEarly? || e.FindBusy? || e.SeeForeground? || e.FailLate? || e.WithdrawToken?
    || e.StartRecovery? || e.RevokeTokens? || e.SeeBodyGone?
  }

  predicate DispatchMoves(e: Event) {
    e.Choose? || e.FailEarly? || e.FindBusy? || e.SeeForeground? || e.FailLate?
  }

  predicate ShapedMove(t: Tables, s: Body, e: Event, n: Next)
    requires MovesOnly(e)
  {
    e.c in n.body.controllers && n.body == s.(controllers := s.controllers[e.c := n.body.controllers[e.c]])
    && n.tables.lanes == t.lanes && MayBecome(s, e.c, n.body.controllers[e.c])
  }

  lemma DispatchShape(t: Tables, b: BodyId, s: Body, e: Event)
    requires Enabled(t, b, s, e) && DispatchMoves(e)
    ensures ShapedMove(t, s, e, After(t, b, s, e))
  {}

  lemma WithdrawShape(t: Tables, b: BodyId, s: Body, e: Event)
    requires Enabled(t, b, s, e) && e.WithdrawToken?
    ensures ShapedMove(t, s, e, After(t, b, s, e))
  {
    if s.controllers[e.c].phase.reserved.Some? { CancelEffect(t, s.controllers[e.c].phase.reserved.value, b, false); }
  }

  lemma LookShape(t: Tables, b: BodyId, s: Body, e: Event)
    requires Enabled(t, b, s, e) && (e.ReadLane? || e.StartRecovery? || e.SeeBodyGone?)
    ensures ShapedMove(t, s, e, After(t, b, s, e))
  {}

  lemma RevokeShape(t: Tables, b: BodyId, s: Body, e: Event)
    requires Enabled(t, b, s, e) && e.RevokeTokens?
    ensures ShapedMove(t, s, e, After(t, b, s, e))
  {}

  lemma MoveShape(t: Tables, b: BodyId, s: Body, e: Event)
    requires Enabled(t, b, s, e) && MovesOnly(e)
    ensures var n := After(t, b, s, e);
            e.c in n.body.controllers && n.body == s.(controllers := s.controllers[e.c := n.body.controllers[e.c]])
            && n.tables.lanes == t.lanes
    ensures MayBecome(s, e.c, After(t, b, s, e).body.controllers[e.c])
  {
    hide After, Enabled, MayBecome;
    if DispatchMoves(e) {
      DispatchShape(t, b, s, e);
    } else if e.WithdrawToken? {
      WithdrawShape(t, b, s, e);
    } else if e.RevokeTokens? {
      RevokeShape(t, b, s, e);
    } else {
      LookShape(t, b, s, e);
    }
  }

  /** The phase changes of these events. */
  predicate Follows(s: Body, read: Lane, p: Phase, q: Phase) {
    || (q.Chosen? && Ready(read.state))
    || (q.Abandoning? && (p.Admitted? || p.Holding? || p.Scripted?))
    || (q.Seen? && p.Typed?)
    || q.Recovering?
    || (q.Withdrawn? && p.Unscripted?)
    || (q.Revoked? && p.Finished?)
    || (q.BodyGone? && read.state != Destroyed)
  }

  lemma PhaseFollows(lane: Lane, s: Body, open: set<Token>, ct: Controller, q: Phase)
    requires ControllerInv(lane, s, open, ct) && Follows(s, ct.lane, ct.phase, q)
    ensures ControllerInv(lane, s, if q.Revoked? then {} else open, ct.(phase := q))
  {
  }

  /** What the controller of such an event becomes satisfies its own part of the invariant. */
  lemma MoveAllowed(t: Tables, b: BodyId, s: Body, e: Event)
    requires Enabled(t, b, s, e) && MovesOnly(e) && !e.ReadLane?
    ensures e.c in s.controllers && e.c in After(t, b, s, e).body.controllers
    ensures var ct := After(t, b, s, e).body.controllers[e.c];
            && ct.lane == s.controllers[e.c].lane
            && Follows(s, ct.lane, s.controllers[e.c].phase, ct.phase)
            && (e.RevokeTokens? <==> ct.phase.Revoked?)
  {
    MoveShape(t, b, s, e);
  }

  lemma MoveKeeps(t: Tables, b: BodyId, s: Body, e: Event)
    requires Inv(t, b, s) && Enabled(t, b, s, e) && MovesOnly(e)
    ensures Inv(After(t, b, s, e).tables, b, After(t, b, s, e).body)
  {
    var lane, open := t.lanes[b], Open(t, b);
    var left := if e.RevokeTokens? then {} else open;
    var n := After(t, b, s, e);
    MoveShape(t, b, s, e);
    if e.ReadLane? {
      LookingAllowed(t, b, s, e);
    } else {
      MoveAllowed(t, b, s, e);
      assert ControllerInv(lane, s, open, s.controllers[e.c]);
      PhaseFollows(lane, s, open, s.controllers[e.c], n.body.controllers[e.c].phase);
    }
    hide After, Enabled, ControllerInv, Open;
    OpenOnlyCloses(t, b, s, e);
    FewerOpen(lane, s, open, left);
    ControllerMoves(lane, s, left, e.c, n.body.controllers[e.c]);
    FewerOpen(lane, n.body, left, Open(n.tables, b));
  }

  lemma LookingAllowed(t: Tables, b: BodyId, s: Body, e: Event)
    requires Inv(t, b, s) && Enabled(t, b, s, e) && e.ReadLane?
    ensures ControllerInv(t.lanes[b], s, Open(t, b), After(t, b, s, e).body.controllers[e.c])
  {
  }

  lemma WithdrawCloses(t: Tables, b: BodyId, s: Body, e: Event)
    requires Enabled(t, b, s, e) && (e.WithdrawToken? || e.RevokeTokens?)
    ensures Open(After(t, b, s, e).tables, b) <= if e.RevokeTokens? then {} else Open(t, b)
  {
    hide Cancel, Revoke, Open;
    if e.RevokeTokens? {
      RevokeEffect(t, b);
    } else if s.controllers[e.c].phase.reserved.Some? {
      CancelEffect(t, s.controllers[e.c].phase.reserved.value, b, false);
    }
  }

  lemma MovesSpareTables(t: Tables, b: BodyId, s: Body, e: Event)
    requires Enabled(t, b, s, e) && MovesOnly(e) && !e.WithdrawToken? && !e.RevokeTokens?
    ensures After(t, b, s, e).tables == t
  {
    hide Reserve, Bind, Cancel, Revoke, Transition, RecordForeground, AfterChange;
  }

  lemma OpenOnlyCloses(t: Tables, b: BodyId, s: Body, e: Event)
    requires Enabled(t, b, s, e) && MovesOnly(e)
    ensures Open(After(t, b, s, e).tables, b) <= if e.RevokeTokens? then {} else Open(t, b)
  {
    hide After, Enabled, Open;
    if e.WithdrawToken? || e.RevokeTokens? { WithdrawCloses(t, b, s, e); } else { MovesSpareTables(t, b, s, e); }
  }

  lemma AdmitKeeps(t: Tables, b: BodyId, s: Body, e: Event)
    requires Inv(t, b, s) && Enabled(t, b, s, e) && e.Admit?
    ensures Inv(After(t, b, s, e).tables, b, After(t, b, s, e).body)
  {
    var c, provider, at := e.c, e.provider, e.at;
    var lane, open := t.lanes[b], Open(t, b);
    var r := Transition(t, b, Admission(s.controllers[c].lane, provider), at);
    assert ControllerInv(lane, s, open, s.controllers[c]);
    assert r.tables.launches == t.launches;
    assert Open(r.tables, b) == open;
    if r.outcome == Done { LaneAdmits(lane, r.tables.lanes[b], s, open, c); } else { ControllerEnds(lane, s, open, c); }
  }

  /** A new capability of a dispatch is no concern of the recoveries of other generations. */
  lemma TokenIssued(lane: Lane, s: Body, open: set<Token>, c: Cid, token: Token)
    requires BodyInv(lane, s, open) && At(s, c, Admitted) && !Issued(s, token)
    ensures BodyInv(lane, Move(s, c, Holding(token)).(issued := s.issued + {(s.controllers[c].lane.generation, token)}),
                    open + {token})
  {
    var g := s.controllers[c].lane.generation;
    var s' := Move(s, c, Holding(token)).(issued := s.issued + {(g, token)});
    assert ControllerInv(lane, s, open, s.controllers[c]);
    forall x | Ran(s, x) ensures Ran(s', x) {}
    forall d | d in s'.controllers
      ensures ControllerInv(lane, s', open + {token}, s'.controllers[d])
    {
      assert ControllerInv(lane, s, open, s.controllers[d]);
    }
  }

  lemma ReservingKeeps(t: Tables, b: BodyId, s: Body, e: Event)
    requires Inv(t, b, s) && Enabled(t, b, s, e) && e.ReserveToken?
    ensures Inv(After(t, b, s, e).tables, b, After(t, b, s, e).body)
  {
    hide Reserve, Open, BodyInv;
    var c, r, at, later := e.c, e.request, e.at, e.later;
    var lane, open := t.lanes[b], Open(t, b);
    var n := After(t, b, s, e);
    ReserveEffect(t, r, at, later);
    if Reserve(t, r, at, later).outcome == Done {
      TokenIssued(lane, s, open, c, r.token);
      FewerOpen(lane, n.body, open + {r.token}, Open(n.tables, b));
    } else {
      ReservingFails(lane, s, open, c);
      FewerOpen(lane, n.body, open, Open(n.tables, b));
    }
  }

  lemma ReservingFails(lane: Lane, s: Body, open: set<Token>, c: Cid)
    requires BodyInv(lane, s, open) && At(s, c, Admitted)
    ensures BodyInv(lane, Move(s, c, Abandoning(None)), open)
  {
    assert ControllerInv(lane, s, open, s.controllers[c]);
    ControllerMoves(lane, s, open, c, s.controllers[c].(phase := Abandoning(None)));
  }

  lemma RemovingKeeps(t: Tables, b: BodyId, s: Body, e: Event)
    requires Inv(t, b, s) && Enabled(t, b, s, e) && e.RemoveLauncher?
    ensures Inv(After(t, b, s, e).tables, b, After(t, b, s, e).body)
  {
    var c := e.c;
    var lane, open, ct := t.lanes[b], Open(t, b), s.controllers[c];
    var s1 := s.(files := s.files - {ct.lane.generation});
    FileGoes(lane, s, open, ct.lane.generation);
    assert ControllerInv(lane, s1, open, ct);
    ControllerMoves(lane, s1, open, c, ct.(phase := Unscripted(ct.phase.reserved)));
  }

  /** Nobody else dispatches what this controller recovers, so a launcher that is still there has not run. */
  lemma UnlinkedMeans(lane: Lane, s: Body, open: set<Token>, c: Cid)
    requires BodyInv(lane, s, open) && !s.misled && At(s, c, Recovering)
    ensures var g := s.controllers[c].lane.generation;
            var s1 := s.(files := s.files - {g});
            g in s.files ==> Over(s1, g)
  {
  }

  function Unlinked(s: Body, c: Cid): Body
    requires c in s.controllers
  {
    var ct := s.controllers[c];
    var g := ct.lane.generation;
    s.(files := s.files - {g},
      controllers := s.controllers[c := ct.(phase := if g in s.files then Finished(false) else Missing)])
  }

  lemma UnlinkShape(t: Tables, b: BodyId, s: Body, e: Event)
    requires Enabled(t, b, s, e) && e.UnlinkLauncher?
    ensures After(t, b, s, e).tables == t && After(t, b, s, e).body == Unlinked(s, e.c)
  {
    var g := s.controllers[e.c].lane.generation;
    assert g !in s.files ==> s.files - {g} == s.files;
  }

  lemma UnlinkingKeeps(t: Tables, b: BodyId, s: Body, e: Event)
    requires Inv(t, b, s) && Enabled(t, b, s, e) && e.UnlinkLauncher?
    ensures Inv(After(t, b, s, e).tables, b, After(t, b, s, e).body)
  {
    UnlinkShape(t, b, s, e);
    var c := e.c;
    var lane, open, ct := t.lanes[b], Open(t, b), s.controllers[c];
    var g := ct.lane.generation;
    var s1 := s.(files := s.files - {g});
    if !s.misled { UnlinkedMeans(lane, s, open, c); }
    FileGoes(lane, s, open, g);
    assert ControllerInv(lane, s1, open, ct);
    var next := if g in s.files then Finished(false) else Missing;
    ControllerMoves(lane, s1, open, c, ct.(phase := next));
  }

  /** Publishing the foreground group of a generation whose launcher is gone. */
  lemma NotingKeeps(t: Tables, b: BodyId, s: Body, c: Cid, group: int, at: int)
    requires Inv(t, b, s) && c in s.controllers
    requires s.controllers[c].phase.Seen? || s.controllers[c].phase.Busy?
    ensures var r := RecordForeground(t, b, s.controllers[c].lane.generation, group, at);
            (r.outcome == Done ==> Inv(r.tables, b, Ends(s, c))) && (r.outcome != Done ==> r.tables == t)
  {
    var lane, open := t.lanes[b], Open(t, b);
    var ct := s.controllers[c];
    assert ControllerInv(lane, s, open, ct);
    var r := RecordForeground(t, b, ct.lane.generation, group, at);
    if r.outcome == Done {
      ControllerEnds(lane, s, open, c);
      var s' := Ends(s, c);
      forall d | d in s'.controllers ensures !s.misled ==> !BeforeTyping(s'.controllers[d].phase) {
        assert ControllerInv(lane, s, open, s.controllers[d]);
      }
      LaneRuns(lane, r.tables.lanes[b], s', open);
      RememberKnown(lane, s', open);
      assert Remember(s', r.tables.lanes[b]) == s';
      assert Open(r.tables, b) == open;
    }
  }

  lemma NoteKeeps(t: Tables, b: BodyId, s: Body, e: Event)
    requires Inv(t, b, s) && Enabled(t, b, s, e) && e.NoteForeground?
    ensures Inv(After(t, b, s, e).tables, b, After(t, b, s, e).body)
  {
    var c, at := e.c, e.at;
    var lane, open, ct := t.lanes[b], Open(t, b), s.controllers[c];
    NotingKeeps(t, b, s, c, ct.phase.group, at);
    if RecordForeground(t, b, ct.lane.generation, ct.phase.group, at).outcome != Done {
      assert ControllerInv(lane, s, open, ct);
      ControllerMoves(lane, s, open, c, ct.(phase := Recovering));
    }
  }

  lemma BusyKeeps(t: Tables, b: BodyId, s: Body, e: Event)
    requires Inv(t, b, s) && Enabled(t, b, s, e) && e.NoteBusy?
    ensures Inv(After(t, b, s, e).tables, b, After(t, b, s, e).body)
  {
    var c, at := e.c, e.at;
    NotingKeeps(t, b, s, c, s.controllers[c].phase.group, at);
    ControllerEnds(t.lanes[b], s, Open(t, b), c);
  }

  lemma ReadAgainKeeps(t: Tables, b: BodyId, s: Body, e: Event)
    requires Inv(t, b, s) && Enabled(t, b, s, e) && e.ReadAgain?
    ensures Inv(After(t, b, s, e).tables, b, After(t, b, s, e).body)
  {
    var c := e.c;
    var lane, open, ct := t.lanes[b], Open(t, b), s.controllers[c];
    assert ControllerInv(lane, s, open, ct);
    if lane.generation == ct.lane.generation && Bindable(lane.state) {
      ControllerMoves(lane, s, open, c, Controller(lane, Reread(ct.phase.ran)));
    } else {
      ControllerEnds(lane, s, open, c);
    }
  }

  lemma GivingUpKeeps(t: Tables, b: BodyId, s: Body, e: Event)
    requires Inv(t, b, s) && Enabled(t, b, s, e) && e.GiveUp?
    ensures Inv(After(t, b, s, e).tables, b, After(t, b, s, e).body)
  {
    var c := e.c;
    var lane, open, ct := t.lanes[b], Open(t, b), s.controllers[c];
    assert ControllerInv(lane, s, open, ct);
    var t' := After(t, b, s, e).tables;
    var s' := Ends(s, c);
    ControllerEnds(lane, s, open, c);
    assert t'.launches == t.launches;
    assert Open(t', b) == open;
    if t'.lanes[b] != lane {
      forall d | d in s'.controllers ensures !s.misled ==> !BeforeTyping(s'.controllers[d].phase) {
        assert ControllerInv(lane, s, open, s.controllers[d]);
      }
      LaneLeaves(lane, t'.lanes[b], s', open);
    }
  }

  /** Recovery ends its controller, and the capabilities stay as they are. */
  lemma ConcludeShape(t: Tables, b: BodyId, s: Body, e: Event)
    requires Enabled(t, b, s, e) && e.Conclude?
    ensures var n := After(t, b, s, e);
            n.body == Ends(s, e.c) && n.tables.launches == t.launches && b in n.tables.lanes
            && Open(n.tables, b) == Open(t, b)
  {
    assert After(t, b, s, e).tables.launches == t.launches;
  }

  /** What the compare-and-swap of a recovery makes of a lane, if it goes through. */
  lemma ConcludeChange(t: Tables, b: BodyId, s: Body, e: Event)
    requires Enabled(t, b, s, e) && e.Conclude? && b in After(t, b, s, e).tables.lanes
    requires After(t, b, s, e).tables.lanes[b] != t.lanes[b]
    ensures var lane, lane', ct := t.lanes[b], After(t, b, s, e).tables.lanes[b], s.controllers[e.c];
            && ct.phase.Reread? && ct.lane.state == lane.state
               && ct.lane.generation == lane.generation == lane'.generation
            && !Bindable(lane'.state)
            && (lane'.bound == None || lane'.bound == ct.lane.bound)
  {}

  /** The reading of a recovering controller, applied to a lane that is still as it was read. */
  lemma RecoveredIsOver(lane: Lane, s: Body, open: set<Token>, c: Cid)
    requires BodyInv(lane, s, open) && c in s.controllers && s.controllers[c].phase.Reread?
    requires s.controllers[c].lane.state == lane.state && s.controllers[c].lane.generation == lane.generation
    ensures !s.misled ==> open == {} && Over(Ends(s, c), lane.generation) && NoneBeforeTyping(Ends(s, c))
    ensures forall token | token in open :: (lane.generation, token) !in s.issued
    ensures lane.state != Destroyed
    ensures s.controllers[c].lane.bound.Some? ==> (lane.generation, s.controllers[c].lane.bound.value) in s.everBound
  {
    var ct := s.controllers[c];
    assert ControllerInv(lane, s, open, ct);
    forall d | d in s.controllers ensures !s.misled ==> d != c ==> !BeforeTyping(s.controllers[d].phase) {
      assert ControllerInv(lane, s, open, s.controllers[d]);
    }
  }

  /**
   When a recovery moves the lane, no capability of the lane's generation is open; if it was not misled, none at all.
   */
  predicate Settles(lane: Lane, s: Body, open: set<Token>) {
    && (forall token | token in open :: (lane.generation, token) !in s.issued)
    && (!s.misled ==> open == {})
  }

  lemma ConcludeLeaves(t: Tables, b: BodyId, s: Body, e: Event)
    requires Inv(t, b, s) && Enabled(t, b, s, e) && e.Conclude? && b in After(t, b, s, e).tables.lanes
    requires After(t, b, s, e).tables.lanes[b] != t.lanes[b] && BodyInv(t.lanes[b], Ends(s, e.c), Open(t, b))
    ensures BodyInv(After(t, b, s, e).tables.lanes[b], Ends(s, e.c), Open(t, b))
    ensures Settles(t.lanes[b], s, Open(t, b))
  {
    ConcludeChange(t, b, s, e);
    hide After, BodyInv, Over, NoneBeforeTyping, Open;
    RecoveredIsOver(t.lanes[b], s, Open(t, b), e.c);
    LaneLeaves(t.lanes[b], After(t, b, s, e).tables.lanes[b], Ends(s, e.c), Open(t, b));
  }

  lemma ConcludeKeeps(t: Tables, b: BodyId, s: Body, e: Event)
    requires Inv(t, b, s) && Enabled(t, b, s, e) && e.Conclude?
    ensures Inv(After(t, b, s, e).tables, b, After(t, b, s, e).body)
    ensures After(t, b, s, e).tables.lanes[b] != t.lanes[b] ==>
            Settles(t.lanes[b], s, Open(After(t, b, s, e).tables, b))
  {
    hide After, Enabled, BodyInv, Open;
    ConcludeShape(t, b, s, e);
    ControllerEnds(t.lanes[b], s, Open(t, b), e.c);
    if After(t, b, s, e).tables.lanes[b] != t.lanes[b] { ConcludeLeaves(t, b, s, e); }
  }

  /** A compare-and-swap by a controller that ends, seen from the lane: it happened or it did not. */
  lemma ChangeKeeps(t: Tables, b: BodyId, s: Body, c: Cid, change: Change, at: int)
    requires Inv(t, b, s)
    requires !change.advance && !Bindable(change.target) && change.expected != Destroyed
    requires Transition(t, b, change, at).outcome == Done ==>
               && (change.bound.Some? ==> (t.lanes[b].generation, change.bound.value) in s.everBound)
               && (s.misled || change.target == Destroyed
                  || (Over(Ends(s, c), t.lanes[b].generation) && NoneBeforeTyping(Ends(s, c))))
    ensures Inv(AfterChange(t, b, s, c, change, at).tables, b, AfterChange(t, b, s, c, change, at).body)
  {
    var r := Transition(t, b, change, at);
    ControllerEnds(t.lanes[b], s, Open(t, b), c);
    assert r.tables.launches == t.launches;
    assert Open(r.tables, b) == Open(t, b);
    if r.outcome == Done { LaneLeaves(t.lanes[b], r.tables.lanes[b], Ends(s, c), Open(t, b)); }
  }

  lemma LeavingKeeps(t: Tables, b: BodyId, s: Body, e: Event)
    requires Inv(t, b, s) && Enabled(t, b, s, e)
    requires e.OpenShell? || e.LeaveRunning?
    ensures Inv(After(t, b, s, e).tables, b, After(t, b, s, e).body)
  {
    if e.LeaveRunning? { LeaveKeeps(t, b, s, e); } else { OpenShellKeeps(t, b, s, e); }
  }

  lemma LeaveKeeps(t: Tables, b: BodyId, s: Body, e: Event)
    requires Inv(t, b, s) && Enabled(t, b, s, e) && e.LeaveRunning?
    ensures Inv(After(t, b, s, e).tables, b, After(t, b, s, e).body)
  {
    var lane, open, ct := t.lanes[b], Open(t, b), s.controllers[e.c];
    assert ControllerInv(lane, s, open, ct);
    ControllerEnds(lane, s, open, e.c);
    if lane.state == ProviderRunning && !s.misled { RestingIsQuiet(lane, Ends(s, e.c), open); }
    ChangeKeeps(t, b, s, e.c, Exit(ct.lane, ProviderExited), e.at);
  }

  lemma OpenShellKeeps(t: Tables, b: BodyId, s: Body, e: Event)
    requires Inv(t, b, s) && Enabled(t, b, s, e) && e.OpenShell?
    ensures Inv(After(t, b, s, e).tables, b, After(t, b, s, e).body)
  {
    var lane, open := t.lanes[b], Open(t, b);
    ControllerEnds(lane, s, open, e.c);
    if lane.state == Provisional && !s.misled { RestingIsQuiet(lane, Ends(s, e.c), open); }
    ChangeKeeps(t, b, s, e.c, Reset(Provisional, None, ShellIdle), e.at);
  }

  lemma DestroyingKeeps(t: Tables, b: BodyId, s: Body, e: Event)
    requires Inv(t, b, s) && Enabled(t, b, s, e)
    requires e.FailCreation? || e.DestroyLane?
    ensures Inv(After(t, b, s, e).tables, b, After(t, b, s, e).body)
  {
    hide Bind, Reserve, Cancel, Revoke, RecordForeground;
    var lane, open, ct := t.lanes[b], Open(t, b), s.controllers[e.c];
    assert ControllerInv(lane, s, open, ct);
    ChangeKeeps(t, b, s, e.c, if e.DestroyLane? then Exit(ct.lane, Destroyed)
      else Reset(ct.lane.state, None, Destroyed), e.at);
  }

  // ---- looking at the terminal ----

  lemma OverMoves(s: Body, c: Cid, p: Phase, g: nat)
    requires c in s.controllers && !Unwritten(s.controllers[c].phase) && !Unwritten(p)
    ensures Over(s, g) <==> Over(Move(s, c, p), g)
  {
    var s' := Move(s, c, p);
    if Ran(s', g) {
      forall d | d in s.controllers
        ensures Unwritten(s.controllers[d].phase) ==> s.controllers[d].lane.generation != g {
        assert d in s'.controllers;
      }
    }
  }

  /** A controller that sees the shell judges the generation of its reading, in whatever terminal `s1` is left. */
  lemma LooksKeeps(lane: Lane, s: Body, open: set<Token>, c: Cid, p: Phase)
    requires BodyInv(lane, s, open) && c in s.controllers
    requires (s.controllers[c].phase.Looking? && p.Idle? && s.controllers[c].lane.state == ProviderRunning)
          || (s.controllers[c].phase.Missing? && p.Finished?)
    ensures BodyInv(lane, Judged(Move(s, c, p), s.controllers[c].lane.generation), open)
  {
    var ct := s.controllers[c];
    var s1 := Judged(s, ct.lane.generation);
    JudgedKeeps(lane, s, open, ct.lane.generation);
    assert ControllerInv(lane, s1, open, ct);
    ControllerMoves(lane, s1, open, c, ct.(phase := p));
    OverMoves(s, c, p, ct.lane.generation);
  }

  lemma LookingKeeps(t: Tables, b: BodyId, s: Body, e: Event)
    requires Inv(t, b, s) && Enabled(t, b, s, e) && (e.SeeIdle? || e.ObserveForeground?)
    ensures Inv(After(t, b, s, e).tables, b, After(t, b, s, e).body)
  {
    var lane, open, ct := t.lanes[b], Open(t, b), s.controllers[e.c];
    if s.foreground == Shell {
      LooksKeeps(lane, s, open, e.c, if e.SeeIdle? then Idle else Finished(true));
    } else {
      assert ControllerInv(lane, s, open, ct);
      ControllerMoves(lane, s, open, e.c, ct.(phase := Busy(s.foreground.group)));
    }
  }

  lemma StoppingKeeps(t: Tables, b: BodyId, s: Body, e: Event)
    requires Inv(t, b, s) && Enabled(t, b, s, e) && e.StopJob?
    ensures Inv(After(t, b, s, e).tables, b, After(t, b, s, e).body)
  {
    var lane, open := t.lanes[b], Open(t, b);
    var left := WithoutGroup(s.agents, s.foreground.group);
    AgentsEnd(lane, s, open, left, Shell);
    LooksKeeps(lane, s.(agents := left, foreground := Shell), open, e.c, Idle);
  }

  lemma TerminalKeeps(t: Tables, b: BodyId, s: Body, e: Event)
    requires Inv(t, b, s) && Enabled(t, b, s, e)
    requires e.LineLost? || e.AgentEnds? || e.ForegroundBecomes?
    ensures Inv(After(t, b, s, e).tables, b, After(t, b, s, e).body)
  {
    var lane, open, n := t.lanes[b], Open(t, b), After(t, b, s, e);
    if e.LineLost? {
      TypedLineGoes(lane, s, open, e.generation);
    } else {
      AgentsEnd(lane, s, open, n.body.agents, n.body.foreground);
    }
  }

  lemma HookKeeps(t: Tables, b: BodyId, s: Body, e: Event)
    requires Inv(t, b, s) && Enabled(t, b, s, e) && e.HookFires?
    ensures Inv(After(t, b, s, e).tables, b, After(t, b, s, e).body)
  {
    hide Bind, Reserve, Cancel, Revoke, RecordForeground, Transition;
    var lane, open := t.lanes[b], Open(t, b);
    var h := Hook(s.agents[e.generation].token, e.key, b, e.project);
    var t' := Bind(t, h, e.at, e.writes).tables;
    BindEffect(t, h, e.at, e.writes);
    FewerOpen(lane, s, open, Open(t', b));
    if t'.lanes == t.lanes {
      RememberKnown(lane, s, open);
    } else {
      forall c | c in s.controllers ensures !s.misled ==> !BeforeTyping(s.controllers[c].phase) {
        assert ControllerInv(lane, s, open, s.controllers[c]);
      }
      LaneRuns(lane, t'.lanes[b], s, Open(t', b));
    }
  }

  lemma LaunchingKeeps(t: Tables, b: BodyId, s: Body, e: Event)
    requires Inv(t, b, s) && Enabled(t, b, s, e)
    requires e.WriteLauncher? || e.TypeLauncher? || e.LauncherStarts? || e.Crash?
    ensures Inv(After(t, b, s, e).tables, b, After(t, b, s, e).body)
  {
    var lane, open := t.lanes[b], Open(t, b);
    if e.WriteLauncher? { LauncherWritten(lane, s, open, e.c); }
    else if e.TypeLauncher? { LauncherTyped(lane, s, open, e.c); }
    else if e.LauncherStarts? { LauncherRuns(lane, s, open, e.generation, e.group); }
    else { ControllerEnds(lane, s, open, e.c); }
  }

  lemma DispatchKeeps(t: Tables, b: BodyId, s: Body, e: Event)
    requires Inv(t, b, s) && Enabled(t, b, s, e)
    requires e.Admit? || e.ReserveToken? || e.NoteForeground? || e.RemoveLauncher? || e.GiveUp?
    ensures Inv(After(t, b, s, e).tables, b, After(t, b, s, e).body)
  {
    if e.Admit? { AdmitKeeps(t, b, s, e); }
    else if e.ReserveToken? { ReservingKeeps(t, b, s, e); }
    else if e.NoteForeground? { NoteKeeps(t, b, s, e); }
    else if e.RemoveLauncher? { RemovingKeeps(t, b, s, e); }
    else { GivingUpKeeps(t, b, s, e); }
  }

  lemma RecoveryKeeps(t: Tables, b: BodyId, s: Body, e: Event)
    requires Inv(t, b, s) && Enabled(t, b, s, e)
    requires e.UnlinkLauncher? || e.NoteBusy? || e.ReadAgain? || e.Conclude? || e.StopJob?
    ensures Inv(After(t, b, s, e).tables, b, After(t, b, s, e).body)
  {
    if e.UnlinkLauncher? { UnlinkingKeeps(t, b, s, e); }
    else if e.NoteBusy? { BusyKeeps(t, b, s, e); }
    else if e.ReadAgain? { ReadAgainKeeps(t, b, s, e); }
    else if e.Conclude? { ConcludeKeeps(t, b, s, e); }
    else { StoppingKeeps(t, b, s, e); }
  }

  lemma StepKeeps(t: Tables, b: BodyId, s: Body, e: Event)
    requires Inv(t, b, s) && Enabled(t, b, s, e)
    ensures Inv(After(t, b, s, e).tables, b, After(t, b, s, e).body)
  {
    hide BodyInv, Inv, After, Enabled;
    if MovesOnly(e) {
      MoveKeeps(t, b, s, e);
    } else if e.Admit? || e.ReserveToken? || e.NoteForeground? || e.RemoveLauncher? || e.GiveUp? {
      DispatchKeeps(t, b, s, e);
    } else if e.WriteLauncher? || e.TypeLauncher? || e.LauncherStarts? || e.Crash? {
      LaunchingKeeps(t, b, s, e);
    } else if e.UnlinkLauncher? || e.NoteBusy? || e.ReadAgain? || e.Conclude? || e.StopJob? {
      RecoveryKeeps(t, b, s, e);
    } else if e.OpenShell? || e.LeaveRunning? {
      LeavingKeeps(t, b, s, e);
    } else if e.FailCreation? || e.DestroyLane? {
      DestroyingKeeps(t, b, s, e);
    } else if e.HookFires? {
      HookKeeps(t, b, s, e);
    } else if e.SeeIdle? || e.ObserveForeground? {
      LookingKeeps(t, b, s, e);
    } else {
      TerminalKeeps(t, b, s, e);
    }
  }
}

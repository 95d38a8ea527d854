/**
 Runs of the lane protocol, step by step.  An agent is launched and binds its
 lane, and a controller that read the lane before the bind then clears the
 identity again as it records the exit.  And a job of the user gets in front of
 a launcher: the controllers take it for the agent and its end for the agent's,
 and the agent, once it starts, binds the next generation of the lane.
 */
module LaneWitness {
  import opened Wrappers
  import opened SessionTables
  import opened LaneProtocol
  import opened LaneSafety
  import opened LaneRuns
  import opened BindRecovery

  const Project := "/p"
  const Agent0 := Key("claude", "s")
  const Asked := Request("token", "claude", None, "b", false, Project, Project, false, New, 600)
  const FreshLane := Lane(None, Project, Project, Provisional, 0, None, None, None, None, 0)
  const IdleLane := FreshLane.(state := ShellIdle)
  const ReservedLane := FreshLane.(state := LaunchReserved, generation := 1, launchProvider := Some("claude"))
  const RunningLane := ReservedLane.(state := ProviderRunning, foreground := Some(2), updatedAt := 1)
  const BoundLane := RunningLane.(bound := Some(Agent0), lastBoundAt := Some(2), updatedAt := 2)
  const Capability := ReservedLaunch(Asked, 0)

  function OneLane(records: map<Key, Record>, lane: Lane, launches: map<Token, Launch>, body: Body): World {
    World(Tables(records, map["b" := lane], launches), map["b" := body])
  }

  const Running := Body(map[], {}, map[1 := Agent("token", 2)], Job(2), map[], {}, {(1, "token")}, false)

  lemma Extend(ws: seq<World>, actions: seq<Action>, a: Action) returns (ws': seq<World>, actions': seq<Action>)
    requires IsRun(ws, actions) && CanHappen(ws[|ws| - 1], a)
    ensures IsRun(ws', actions')
    ensures ws' == ws + [Then(ws[|ws| - 1], a)] && actions' == actions + [a]
  {
    ws', actions' := ws + [Then(ws[|ws| - 1], a)], actions + [a];
    forall i | 0 <= i < |actions'| ensures Taken(ws', actions', i) {
      if i < |actions| { assert Taken(ws, actions, i); }
    }
  }

  function On(e: Event): Action {
    Happens("b", e)
  }

  lemma OpensShell() returns (ws: seq<World>, actions: seq<Action>)
    ensures IsRun(ws, actions) && ws[|ws| - 1] == OneLane(map[], IdleLane, map[], NewBody)
  {
    hide Bind, Reserve, Cancel, Revoke, RecordForeground;
    ws, actions := [Empty], [];
    ws, actions := Extend(ws, actions, MakesLane("b", None, Project, Project, 0));
    assert ws[|ws| - 1] == OneLane(map[], FreshLane, map[], NewBody);
    ws, actions := Extend(ws, actions, On(ReadLane(0)));
    ws, actions := Extend(ws, actions, On(OpenShell(0, 0)));
    assert ws[|ws| - 1].bodies["b"].controllers == map[];
  }

  const Granted := map["token" := Capability]

  function Dispatching(phase: Phase): Body {
    NewBody.(controllers := map[1 := Controller(ReservedLane, phase)])
  }

  function Issuing(phase: Phase): Body {
    Dispatching(phase).(issued := {(1, "token")})
  }

  /** The launcher of the first generation waits in the shell. */
  const Waiting := Issuing(Typed).(files := map[1 := "token"], typed := {1})

  lemma Admits(w: World)
    requires w == OneLane(map[], IdleLane, map[], NewBody.(controllers := map[1 := Controller(IdleLane, Chosen)]))
    ensures CanHappen(w, On(Admit(1, "claude", 0)))
    ensures Then(w, On(Admit(1, "claude", 0))) == OneLane(map[], ReservedLane, map[], Dispatching(Admitted))
  {
    var n := After(w.tables, "b", w.bodies["b"], Admit(1, "claude", 0));
    assert n.tables.lanes == map["b" := ReservedLane];
    assert n.body.controllers == map[1 := Controller(ReservedLane, Admitted)];
  }

  lemma Reserves(w: World)
    requires w == OneLane(map[], ReservedLane, map[], Dispatching(Admitted))
    ensures CanHappen(w, On(ReserveToken(1, Asked, 0, 0)))
    ensures Then(w, On(ReserveToken(1, Asked, 0, 0)))
            == OneLane(map[], ReservedLane, Granted, Issuing(Holding("token")))
  {
    assert Unexpired(map[], 0) == map[] && WithoutUnclaimed(map[], "b") == map[];
    assert Reserve(w.tables, Asked, 0, 0) == Step(w.tables.(launches := Granted), Done);
    var n := After(w.tables, "b", w.bodies["b"], ReserveToken(1, Asked, 0, 0));
    assert n.body.controllers == map[1 := Controller(ReservedLane, Holding("token"))];
    assert n.body.issued == {(1, "token")};
  }

  lemma Types(w: World)
    requires w == OneLane(map[], ReservedLane, Granted, Issuing(Holding("token")))
    ensures CanHappen(w, On(WriteLauncher(1))) && CanHappen(Then(w, On(WriteLauncher(1))), On(TypeLauncher(1)))
    ensures Then(Then(w, On(WriteLauncher(1))), On(TypeLauncher(1))) == OneLane(map[], ReservedLane, Granted, Waiting)
  {
    var n := Then(w, On(WriteLauncher(1)));
    assert n.bodies["b"] == Issuing(Scripted("token")).(files := map[1 := "token"]);
    var m := Then(n, On(TypeLauncher(1)));
    assert m.bodies["b"].controllers == Issuing(Typed).controllers && m.bodies["b"].typed == {1};
    assert m.bodies["b"] == Waiting;
  }

  lemma StartsProcess(w: World)
    requires w == OneLane(map[], ReservedLane, Granted, Waiting)
    ensures CanHappen(w, On(LauncherStarts(1, 2)))
    ensures Then(w, On(LauncherStarts(1, 2)))
         == OneLane(map[], ReservedLane, Granted, Running.(controllers := Issuing(Typed).controllers))
  {
    var n := Then(w, On(LauncherStarts(1, 2)));
    assert n.bodies["b"].files == map[] && n.bodies["b"].typed == {};
  }

  const Seeing := Running.(controllers := Issuing(Seen(2)).controllers)

  lemma SeesProcess(w: World)
    requires w == OneLane(map[], ReservedLane, Granted, Running.(controllers := Issuing(Typed).controllers))
    ensures CanHappen(w, On(SeeForeground(1)))
            && Then(w, On(SeeForeground(1))) == OneLane(map[], ReservedLane, Granted, Seeing)
  {
    hide Reserve, Cancel, Revoke, RecordForeground, Bind, Transition;
    assert Then(w, On(SeeForeground(1))).bodies["b"] == Seeing;
  }

  lemma NotesProcess(w: World)
    requires w == OneLane(map[], ReservedLane, Granted, Seeing)
    ensures CanHappen(w, On(NoteForeground(1, 1)))
            && Then(w, On(NoteForeground(1, 1))) == OneLane(map[], RunningLane, Granted, Running)
  {
    hide Reserve, Cancel, Revoke, Bind, Transition;
    var m := Then(w, On(NoteForeground(1, 1)));
    assert m.tables.lanes == map["b" := RunningLane] && m.bodies["b"].controllers == map[];
  }

  lemma TypesLauncher() returns (ws: seq<World>, actions: seq<Action>)
    ensures IsRun(ws, actions)
    ensures ws[|ws| - 1] == OneLane(map[], ReservedLane, Granted, Waiting)
  {
    ws, actions := OpensShell();
    ws, actions := Extend(ws, actions, On(ReadLane(1)));
    ws, actions := Extend(ws, actions, On(Choose(1)));
    assert ws[|ws| - 1].bodies["b"].controllers == map[1 := Controller(IdleLane, Chosen)];
    assert ws[|ws| - 1].bodies == map["b" := NewBody.(controllers := map[1 := Controller(IdleLane, Chosen)])];
    Admits(ws[|ws| - 1]);
    ws, actions := Extend(ws, actions, On(Admit(1, "claude", 0)));
    Reserves(ws[|ws| - 1]);
    ws, actions := Extend(ws, actions, On(ReserveToken(1, Asked, 0, 0)));
    Types(ws[|ws| - 1]);
    ws, actions := Extend(ws, actions, On(WriteLauncher(1)));
    ws, actions := Extend(ws, actions, On(TypeLauncher(1)));
  }

  lemma StartsAgent() returns (ws: seq<World>, actions: seq<Action>)
    ensures IsRun(ws, actions)
    ensures ws[|ws| - 1] == OneLane(map[], RunningLane, Granted, Running)
  {
    ws, actions := TypesLauncher();
    StartsProcess(ws[|ws| - 1]);
    ws, actions := Extend(ws, actions, On(LauncherStarts(1, 2)));
    SeesProcess(ws[|ws| - 1]);
    ws, actions := Extend(ws, actions, On(SeeForeground(1)));
    NotesProcess(ws[|ws| - 1]);
    ws, actions := Extend(ws, actions, On(NoteForeground(1, 1)));
  }

  const Watched := Running.(controllers := map[2 := Controller(RunningLane, Looking)])
  const TheHook := Hook("token", Agent0, "b", Project)

  lemma HookBindsTables(t: Tables)
    requires t == Tables(map[], map["b" := RunningLane], Granted)
    ensures Bind(t, TheHook, 2, 4).tables.lanes == map["b" := BoundLane]
  {
    assert !AlreadyRuns(t, TheHook) && CapabilityRefusal(t, TheHook, 2).None?;
    BindIsRebind(t, TheHook, 2, 4);
    PublishedRuns(t, TheHook, 2);
    var t' := WithRecord(ClaimFor(t, TheHook), TheHook, 2);
    assert t'.lanes == t.lanes;
    assert CanFinalize(t'.lanes, "b", Agent0);
    assert Finalized(t'.lanes, "b", Agent0, 2) == map["b" := BoundLane];
  }

  /** The hook binds the lane in one step, from the state that a settling controller has just read. */
  lemma HookBinds(w: World)
    requires w == OneLane(map[], RunningLane, Granted, Watched)
    ensures CanHappen(w, On(HookFires(1, Agent0, Project, 2, 4)))
    ensures var w' := Then(w, On(HookFires(1, Agent0, Project, 2, 4)));
            w'.tables.lanes == map["b" := BoundLane] && w'.bodies == map["b" := Watched.(everBound := {(1, Agent0)})]
  {
    hide Reserve, Cancel, Revoke, RecordForeground, Transition, Bind;
    HookBindsTables(w.tables);
    var n := After(w.tables, "b", Watched, HookFires(1, Agent0, Project, 2, 4));
    assert n.body == Remember(Watched, BoundLane);
    assert n.body.everBound == {(1, Agent0)};
  }

  predicate Leaving(w: World, c: Controller) {
    w.tables.lanes == map["b" := BoundLane] && w.bodies.Keys == {"b"} && w.bodies["b"].controllers == map[2 := c]
  }

  lemma AgentLeaves(w: World)
    requires w.tables.lanes == map["b" := BoundLane] && w.bodies == map["b" := Watched.(everBound := {(1, Agent0)})]
    ensures CanHappen(w, On(AgentEnds(1))) && Leaving(Then(w, On(AgentEnds(1))), Controller(RunningLane, Looking))
    ensures Then(w, On(AgentEnds(1))).bodies["b"].foreground == Shell
  {
    hide Reserve, Cancel, Revoke, RecordForeground, Bind, Transition;
  }

  lemma ShellIsSeen(w: World)
    requires Leaving(w, Controller(RunningLane, Looking)) && w.bodies["b"].foreground == Shell
    ensures CanHappen(w, On(SeeIdle(2))) && Leaving(Then(w, On(SeeIdle(2))), Controller(RunningLane, Idle))
  {
    hide Reserve, Cancel, Revoke, RecordForeground, Bind, Transition;
  }

  lemma ExitWrites(w: World)
    requires Leaving(w, Controller(RunningLane, Idle))
    ensures CanHappen(w, On(LeaveRunning(2, 3)))
    ensures Then(w, On(LeaveRunning(2, 3))).tables.lanes
         == map["b" := RunningLane.(state := ProviderExited, foreground := None, updatedAt := 3)]
  {
    hide Reserve, Cancel, Revoke, RecordForeground, Bind;
  }

  /** The agent binds generation 1; the settling controller that looked before clears the identity. */
  lemma ExitMayForget() returns (ws: seq<World>, actions: seq<Action>, i: nat)
    ensures IsRun(ws, actions) && i < |ws| - 1
    ensures ws[i].tables.lanes == map["b" := BoundLane]
    ensures ws[|ws| - 1].tables.lanes
            == map["b" := RunningLane.(state := ProviderExited, foreground := None, updatedAt := 3)]
  {
    ws, actions := StartsAgent();
    ws, actions := Extend(ws, actions, On(ReadLane(2)));
    assert ws[|ws| - 1] == OneLane(map[], RunningLane, Granted, Watched);
    hide Then, CanHappen;
    HookBinds(ws[|ws| - 1]);
    ws, actions := Extend(ws, actions, On(HookFires(1, Agent0, Project, 2, 4)));
    i := |ws| - 1;
    AgentLeaves(ws[i]);
    ws, actions := Extend(ws, actions, On(AgentEnds(1)));
    ShellIsSeen(ws[|ws| - 1]);
    ws, actions := Extend(ws, actions, On(SeeIdle(2)));
    ExitWrites(ws[|ws| - 1]);
    ws, actions := Extend(ws, actions, On(LeaveRunning(2, 3)));
  }

  // ---- a job gets in front of the launcher ----

  const MistakenLane := ReservedLane.(state := ProviderRunning, foreground := Some(9), updatedAt := 1)
  const Missed := Waiting.(controllers := map[])

  lemma TakesJobForAgent(w: World)
    requires w == OneLane(map[], ReservedLane, Granted, Waiting)
    ensures var w1 := Then(w, On(ForegroundBecomes(Job(9))));
            && CanHappen(w, On(ForegroundBecomes(Job(9)))) && CanHappen(w1, On(SeeForeground(1)))
            && Then(w1, On(SeeForeground(1)))
               == OneLane(map[], ReservedLane, Granted,
                          Waiting.(foreground := Job(9), controllers := map[1 := Controller(ReservedLane, Seen(9))]))
  {
    var w2 := Then(Then(w, On(ForegroundBecomes(Job(9)))), On(SeeForeground(1)));
    assert w2.bodies["b"].controllers == map[1 := Controller(ReservedLane, Seen(9))];
  }

  lemma NotesJob(w: World)
    requires w == OneLane(map[], ReservedLane, Granted,
                          Waiting.(foreground := Job(9), controllers := map[1 := Controller(ReservedLane, Seen(9))]))
    ensures CanHappen(w, On(NoteForeground(1, 1)))
    ensures Then(w, On(NoteForeground(1, 1))) == OneLane(map[], MistakenLane, Granted, Missed.(foreground := Job(9)))
  {
    hide Reserve, Cancel, Revoke, Bind, Transition;
    var w1 := Then(w, On(NoteForeground(1, 1)));
    assert w1.tables.lanes == map["b" := MistakenLane] && w1.bodies["b"].controllers == map[];
  }

  lemma JobEnds(w: World)
    requires w == OneLane(map[], MistakenLane, Granted, Missed.(foreground := Job(9)))
    ensures CanHappen(w, On(ForegroundBecomes(Shell)))
    ensures Then(w, On(ForegroundBecomes(Shell))) == OneLane(map[], MistakenLane, Granted, Missed)
  {
    hide Reserve, Cancel, Revoke, RecordForeground, Bind, Transition;
  }

  const Stray :=
    Missed.(files := map[], typed := {}, agents := map[1 := Agent("token", 3)], foreground := Job(3), misled := true)

  const Deceived := Missed.(controllers := map[2 := Controller(MistakenLane, Idle)], misled := true)

  lemma LooksAgain(w: World)
    requires w == OneLane(map[], MistakenLane, Granted, Missed)
    ensures CanHappen(w, On(ReadLane(2)))
    ensures Then(w, On(ReadLane(2)))
         == OneLane(map[], MistakenLane, Granted, Missed.(controllers := map[2 := Controller(MistakenLane, Looking)]))
  {
  }

  lemma JudgesTooEarly(w: World)
    requires w
             == OneLane(map[], MistakenLane, Granted,
             Missed.(controllers := map[2 := Controller(MistakenLane, Looking)]))
    ensures CanHappen(w, On(SeeIdle(2)))
    ensures Then(w, On(SeeIdle(2))) == OneLane(map[], MistakenLane, Granted, Deceived)
  {
    hide Reserve, Cancel, Revoke, RecordForeground, Transition, Bind;
    var s := Move(w.bodies["b"], 2, Idle);
    assert s == Missed.(controllers := map[2 := Controller(MistakenLane, Idle)]);
    assert 1 in s.files && !Over(s, 1);
  }

  const LeftLane := MistakenLane.(state := ProviderExited, foreground := None, updatedAt := 2)

  const Starting1 := Deceived.(files := map[], typed := {}, agents := map[1 := Agent("token", 3)], foreground := Job(3))

  lemma StartsUnnoticed(w: World)
    requires w == OneLane(map[], MistakenLane, Granted, Deceived)
    ensures CanHappen(w, On(LauncherStarts(1, 3)))
    ensures Then(w, On(LauncherStarts(1, 3))) == OneLane(map[], MistakenLane, Granted, Starting1)
  {
    hide Reserve, Cancel, Revoke, RecordForeground, Bind, Transition;
    var w1 := Then(w, On(LauncherStarts(1, 3)));
    assert w1.bodies["b"].files == map[] && w1.bodies["b"].typed == {};
  }

  lemma LeavesBehind(w: World)
    requires w == OneLane(map[], MistakenLane, Granted, Starting1)
    ensures CanHappen(w, On(LeaveRunning(2, 2)))
    ensures Then(w, On(LeaveRunning(2, 2))) == OneLane(map[], LeftLane, Granted, Stray)
  {
    hide Reserve, Cancel, Revoke, RecordForeground, Bind;
    var w2 := Then(w, On(LeaveRunning(2, 2)));
    assert w2.tables.lanes == map["b" := LeftLane] && w2.bodies["b"].controllers == map[];
  }

  const NextLane := LeftLane.(state := Relaunching, generation := 2, updatedAt := 3)
  const Following := Stray.(controllers := map[3 := Controller(NextLane, Admitted)])

  const Choosing := Stray.(controllers := map[3 := Controller(LeftLane, Chosen)])

  lemma LooksNext(w: World)
    requires w == OneLane(map[], LeftLane, Granted, Stray)
    ensures CanHappen(w, On(ReadLane(3)))
    ensures Then(w, On(ReadLane(3)))
            == OneLane(map[], LeftLane, Granted, Stray.(controllers := map[3 := Controller(LeftLane, Looking)]))
  {
    hide Reserve, Cancel, Revoke, RecordForeground, Bind, Transition;
  }

  lemma ChoosesLane(w: World)
    requires w == OneLane(map[], LeftLane, Granted, Stray.(controllers := map[3 := Controller(LeftLane, Looking)]))
    ensures CanHappen(w, On(Choose(3))) && Then(w, On(Choose(3))) == OneLane(map[], LeftLane, Granted, Choosing)
  {
    hide Reserve, Cancel, Revoke, RecordForeground, Bind, Transition;
    assert Then(w, On(Choose(3))).bodies["b"].controllers == map[3 := Controller(LeftLane, Chosen)];
  }

  lemma AdmitsNext(w: World)
    requires w == OneLane(map[], LeftLane, Granted, Choosing)
    ensures CanHappen(w, On(Admit(3, "claude", 3)))
    ensures Then(w, On(Admit(3, "claude", 3))) == OneLane(map[], NextLane, Granted, Following)
  {
    hide Reserve, Cancel, Revoke, RecordForeground, Bind;
    var n := After(w.tables, "b", w.bodies["b"], Admit(3, "claude", 3));
    assert n.tables.lanes == map["b" := NextLane];
    assert n.body.controllers == map[3 := Controller(NextLane, Admitted)];
  }

  const StrayLane := NextLane.(state := ProviderRunning, bound := Some(Agent0), lastBoundAt := Some(4), updatedAt := 4)

  lemma StrayBindsTables(t: Tables)
    requires t == Tables(map[], map["b" := NextLane], Granted)
    ensures Bind(t, TheHook, 4, 4).tables.lanes == map["b" := StrayLane]
    ensures Bind(t, TheHook, 4, 4).tables.launches == map[]
  {
    assert !AlreadyRuns(t, TheHook) && CapabilityRefusal(t, TheHook, 4).None?;
    BindIsRebind(t, TheHook, 4, 4);
    PublishedRuns(t, TheHook, 4);
    var t' := WithRecord(ClaimFor(t, TheHook), TheHook, 4);
    assert t'.lanes == t.lanes && t'.launches == map["token" := Capability.(claim := Claimed(Agent0))];
    assert CanFinalize(t'.lanes, "b", Agent0);
    assert Finalized(t'.lanes, "b", Agent0, 4) == map["b" := StrayLane];
  }

  lemma StrayBinds(w: World)
    requires w == OneLane(map[], NextLane, Granted, Following)
    ensures CanHappen(w, On(HookFires(1, Agent0, Project, 4, 4)))
    ensures var w' := Then(w, On(HookFires(1, Agent0, Project, 4, 4)));
            w'.tables.lanes == map["b" := StrayLane] && w'.tables.launches == map[]
            && w'.bodies == map["b" := Following.(everBound := {(2, Agent0)})]
  {
    hide Reserve, Cancel, Revoke, RecordForeground, Transition, Bind;
    StrayBindsTables(w.tables);
    var n := After(w.tables, "b", Following, HookFires(1, Agent0, Project, 4, 4));
    assert n.body == Remember(Following, StrayLane);
    assert n.body.everBound == {(2, Agent0)};
  }

  lemma LaunchesBehindJob() returns (ws: seq<World>, actions: seq<Action>)
    ensures IsRun(ws, actions) && ws[|ws| - 1] == OneLane(map[], NextLane, Granted, Following)
  {
    hide Then, CanHappen;
    ws, actions := TypesLauncher();
    TakesJobForAgent(ws[|ws| - 1]);
    ws, actions := Extend(ws, actions, On(ForegroundBecomes(Job(9))));
    ws, actions := Extend(ws, actions, On(SeeForeground(1)));
    NotesJob(ws[|ws| - 1]);
    ws, actions := Extend(ws, actions, On(NoteForeground(1, 1)));
    JobEnds(ws[|ws| - 1]);
    ws, actions := Extend(ws, actions, On(ForegroundBecomes(Shell)));
    LooksAgain(ws[|ws| - 1]);
    ws, actions := Extend(ws, actions, On(ReadLane(2)));
    JudgesTooEarly(ws[|ws| - 1]);
    ws, actions := Extend(ws, actions, On(SeeIdle(2)));
    StartsUnnoticed(ws[|ws| - 1]);
    ws, actions := Extend(ws, actions, On(LauncherStarts(1, 3)));
    LeavesBehind(ws[|ws| - 1]);
    ws, actions := Extend(ws, actions, On(LeaveRunning(2, 2)));
    LooksNext(ws[|ws| - 1]);
    ws, actions := Extend(ws, actions, On(ReadLane(3)));
    ChoosesLane(ws[|ws| - 1]);
    ws, actions := Extend(ws, actions, On(Choose(3)));
    AdmitsNext(ws[|ws| - 1]);
    ws, actions := Extend(ws, actions, On(Admit(3, "claude", 3)));
  }

  /** A process that was started for generation 1 binds its lane at generation 2. */
  lemma StrayBindsNext() returns (ws: seq<World>, actions: seq<Action>)
    ensures IsRun(ws, actions) && |actions| >= 1
    ensures var last := actions[|actions| - 1];
            last.Happens? && last.b == "b" && last.e.HookFires? && last.e.generation == 1
    ensures ws[|ws| - 2].tables.lanes == map["b" := NextLane] && NextLane.generation == 2 && NextLane.bound.None?
    ensures ws[|ws| - 1].tables.lanes == map["b" := StrayLane] && StrayLane.bound == Some(Agent0)
    ensures Shows(ws[|ws| - 1], StrayLane, map[], Following.(everBound := {(2, Agent0)}))
  {
    ws, actions := LaunchesBehindJob();
    StrayBinds(ws[|ws| - 1]);
    hide Then, CanHappen;
    ws, actions := Extend(ws, actions, On(HookFires(1, Agent0, Project, 4, 4)));
  }

  // ---- and the dispatch it disturbed reserves its capability late ----

  predicate Shows(w: World, lane: Lane, launches: map<Token, Launch>, body: Body) {
    w.tables.lanes == map["b" := lane] && w.tables.launches == launches && w.bodies == map["b" := body]
  }

  const Late := Controller(NextLane, Admitted)
  const Quiet := Following.(everBound := {(2, Agent0)}, foreground := Shell)
  const Exited := StrayLane.(state := ProviderExited, foreground := None, updatedAt := 5)
  const ThirdLane := Exited.(state := Relaunching, generation := 3, bound := None, lastBoundAt := None, updatedAt := 6)
  const Third := Asked.(token := "third")
  const Second := Asked.(token := "second")

  function Both(lane: Lane, c: Cid, phase: Phase): Body {
    Quiet.(controllers := map[3 := Late, c := Controller(lane, phase)])
  }

  lemma SeesShell(w: World)
    requires Shows(w, StrayLane, map[], Following.(everBound := {(2, Agent0)}))
    ensures var w1 := Then(w, On(ForegroundBecomes(Shell)));
            && CanHappen(w, On(ForegroundBecomes(Shell))) && CanHappen(w1, On(ReadLane(4)))
            && Shows(Then(w1, On(ReadLane(4))), StrayLane, map[], Both(StrayLane, 4, Looking))
  {
  }

  lemma SeeIdleIs(t: Tables, s: Body)
    requires Enabled(t, "b", s, SeeIdle(4))
    ensures After(t, "b", s, SeeIdle(4)).tables == t
    ensures After(t, "b", s, SeeIdle(4)).body == Judged(Move(s, 4, Idle), s.controllers[4].lane.generation)
  {
  }

  lemma SeesIdleAgain(w: World)
    requires Shows(w, StrayLane, map[], Both(StrayLane, 4, Looking))
    ensures CanHappen(w, On(SeeIdle(4))) && Shows(Then(w, On(SeeIdle(4))), StrayLane, map[], Both(StrayLane, 4, Idle))
  {
    hide Reserve, Cancel, Revoke, RecordForeground, Bind, Transition, After, Over;
    SeeIdleIs(w.tables, w.bodies["b"]);
    var s' := Move(w.bodies["b"], 4, Idle);
    assert s'.controllers == Both(StrayLane, 4, Idle).controllers;
    assert Judged(s', 2) == s';
  }

  lemma MayExitAgain(w: World)
    requires Shows(w, StrayLane, map[], Both(StrayLane, 4, Idle))
    ensures CanHappen(w, On(LeaveRunning(4, 5)))
    ensures ChangeOf(w.bodies["b"], LeaveRunning(4, 5))
         == Change(StrayLane.state, Some(StrayLane.generation), ProviderExited, StrayLane.bound,
                   StrayLane.launchProvider, None, StrayLane.lastBoundAt, false)
  {
    hide Reserve, Cancel, Revoke, RecordForeground, Bind, Transition;
  }

  lemma ExitsAgain(w: World)
    requires Shows(w, StrayLane, map[], Both(StrayLane, 4, Idle))
    ensures CanHappen(w, On(LeaveRunning(4, 5))) && Shows(Then(w, On(LeaveRunning(4, 5))), Exited, map[], Quiet)
  {
    MayExitAgain(w);
    hide Reserve, Cancel, Revoke, RecordForeground, Bind, After, Enabled, ChangeOf;
    ChangeOfIs(w.tables, "b", w.bodies["b"], LeaveRunning(4, 5));
    var w2 := Then(w, On(LeaveRunning(4, 5)));
    assert w2.tables.lanes == map["b" := Exited];
    assert w2.bodies["b"].controllers == map[3 := Late];
  }

  lemma ReadsIdle(w: World)
    requires Shows(w, Exited, map[], Quiet)
    ensures CanHappen(w, On(ReadLane(5))) && Shows(Then(w, On(ReadLane(5))), Exited, map[], Both(Exited, 5, Looking))
  {
    hide Reserve, Cancel, Revoke, RecordForeground, Bind, Transition;
  }

  lemma ChoosesAgain(w: World)
    requires Shows(w, Exited, map[], Both(Exited, 5, Looking))
    ensures CanHappen(w, On(Choose(5))) && Shows(Then(w, On(Choose(5))), Exited, map[], Both(Exited, 5, Chosen))
  {
    hide Reserve, Cancel, Revoke, RecordForeground, Bind, Transition;
    assert Then(w, On(Choose(5))).bodies["b"].controllers == Both(Exited, 5, Chosen).controllers;
  }

  lemma AdmitsThird(w: World)
    requires Shows(w, Exited, map[], Both(Exited, 5, Chosen))
    ensures CanHappen(w, On(Admit(5, "claude", 6)))
    ensures Shows(Then(w, On(Admit(5, "claude", 6))), ThirdLane, map[], Both(ThirdLane, 5, Admitted))
  {
    hide Reserve, Cancel, Revoke, RecordForeground, Bind;
    var n := After(w.tables, "b", w.bodies["b"], Admit(5, "claude", 6));
    assert n.tables.lanes == map["b" := ThirdLane];
    assert n.body.controllers == Both(ThirdLane, 5, Admitted).controllers;
  }

  /** A new conversation without a name can always reserve. */
  lemma ReservesAlone(t: Tables, r: Request, at: int)
    requires t.launches == map[] && r == Asked.(token := r.token)
    ensures Reserve(t, r, at, at) == Step(t.(launches := map[r.token := ReservedLaunch(r, at)]), Done)
  {
    assert Unexpired(map[], at) == map[] && WithoutUnclaimed(map[], "b") == map[];
  }

  const Held := Both(ThirdLane, 5, Holding("third")).(issued := {(1, "token"), (3, "third")})

  lemma ReservesThird(w: World)
    requires Shows(w, ThirdLane, map[], Both(ThirdLane, 5, Admitted))
    ensures CanHappen(w, On(ReserveToken(5, Third, 6, 6)))
    ensures Shows(Then(w, On(ReserveToken(5, Third, 6, 6))), ThirdLane, map["third" := ReservedLaunch(Third, 6)], Held)
  {
    hide Reserve, Cancel, Revoke, RecordForeground, Bind, Transition;
    ReservesAlone(w.tables, Third, 6);
    var n := After(w.tables, "b", w.bodies["b"], ReserveToken(5, Third, 6, 6));
    assert n.body.controllers == Held.controllers && n.body.issued == Held.issued;
  }

  lemma Scripts(w: World)
    requires Shows(w, ThirdLane, map["third" := ReservedLaunch(Third, 6)], Held)
    ensures CanHappen(w, On(WriteLauncher(5)))
    ensures Shows(Then(w, On(WriteLauncher(5))), ThirdLane, map["third" := ReservedLaunch(Third, 6)],
                  Both(ThirdLane, 5, Scripted("third")).(issued := Held.issued, files := map[3 := "third"]))
  {
    hide Reserve, Cancel, Revoke, RecordForeground, Bind, Transition;
    var w1 := Then(w, On(WriteLauncher(5)));
    assert w1.bodies["b"].controllers == Both(ThirdLane, 5, Scripted("third")).controllers;
  }

  lemma FailsLate(w: World)
    requires Shows(w, ThirdLane, map["third" := ReservedLaunch(Third, 6)],
                   Both(ThirdLane, 5, Scripted("third")).(issued := Held.issued, files := map[3 := "third"]))
    ensures CanHappen(w, On(FailLate(5)))
    ensures Shows(Then(w, On(FailLate(5))), ThirdLane, map["third" := ReservedLaunch(Third, 6)],
                  Both(ThirdLane, 5, Recovering).(issued := Held.issued, files := map[3 := "third"]))
  {
    hide Reserve, Cancel, Revoke, RecordForeground, Bind, Transition;
    assert Then(w, On(FailLate(5))).bodies["b"].controllers == Both(ThirdLane, 5, Recovering).controllers;
  }

  lemma Unlinks(w: World)
    requires Shows(w, ThirdLane, map["third" := ReservedLaunch(Third, 6)],
                   Both(ThirdLane, 5, Recovering).(issued := Held.issued, files := map[3 := "third"]))
    ensures CanHappen(w, On(UnlinkLauncher(5)))
    ensures Shows(Then(w, On(UnlinkLauncher(5))), ThirdLane, map["third" := ReservedLaunch(Third, 6)],
                  Both(ThirdLane, 5, Finished(false)).(issued := Held.issued))
  {
    hide Reserve, Cancel, Revoke, RecordForeground, Bind, Transition, After;
    UnlinkShape(w.tables, "b", w.bodies["b"], UnlinkLauncher(5));
    var w1 := Then(w, On(UnlinkLauncher(5)));
    assert w1.bodies["b"].controllers == Both(ThirdLane, 5, Finished(false)).controllers
      && w1.bodies["b"].files == map[];
  }

  lemma Revokes(w: World)
    requires Shows(w, ThirdLane, map["third" := ReservedLaunch(Third, 6)],
                   Both(ThirdLane, 5, Finished(false)).(issued := Held.issued))
    ensures CanHappen(w, On(RevokeTokens(5)))
    ensures Shows(Then(w, On(RevokeTokens(5))), ThirdLane, map[],
            Both(ThirdLane, 5, Revoked(false)).(issued := Held.issued))
  {
    hide Reserve, Cancel, RecordForeground, Bind, Transition, AfterChange, Judged;
    var w1 := Then(w, On(RevokeTokens(5)));
    assert w1.tables == Revoke(w.tables, "b") && w1.tables.launches == map[];
    assert w1.bodies["b"].controllers == Both(ThirdLane, 5, Revoked(false)).controllers;
  }

  const Granted2 := map["second" := ReservedLaunch(Second, 7)]
  const Both2 := Quiet.(issued := {(1, "token"), (2, "second"), (3, "third")},
                        controllers :=
                          map[3 := Controller(NextLane, Holding("second")), 5 := Controller(ThirdLane, Revoked(false))])

  lemma ReservesLate(w: World)
    requires Shows(w, ThirdLane, map[], Both(ThirdLane, 5, Revoked(false)).(issued := Held.issued))
    ensures CanHappen(w, On(ReserveToken(3, Second, 7, 7)))
    ensures Shows(Then(w, On(ReserveToken(3, Second, 7, 7))), ThirdLane, Granted2, Both2)
  {
    hide Reserve, Cancel, Revoke, RecordForeground, Bind, Transition;
    ReservesAlone(w.tables, Second, 7);
    var n := After(w.tables, "b", w.bodies["b"], ReserveToken(3, Second, 7, 7));
    assert n.body.controllers == Both2.controllers && n.body.issued == Both2.issued;
  }

  lemma ReadsAgain(w: World)
    requires Shows(w, ThirdLane, Granted2, Both2)
    ensures CanHappen(w, On(ReadAgain(5)))
    ensures Shows(Then(w, On(ReadAgain(5))), ThirdLane, Granted2,
                  Both2.(controllers := Both2.controllers[5 := Controller(ThirdLane, Reread(false))]))
  {
    hide Reserve, Cancel, Revoke, RecordForeground, Bind, Transition;
  }

  lemma Concludes(w: World)
    requires Shows(w, ThirdLane, Granted2,
             Both2.(controllers := Both2.controllers[5 := Controller(ThirdLane, Reread(false))]))
    ensures CanHappen(w, On(Conclude(5, 8)))
    ensures var w' := Then(w, On(Conclude(5, 8)));
            w'.tables.lanes == map["b" := ThirdLane.(state := ShellIdle, launchProvider := None, updatedAt := 8)]
            && w'.tables.launches == Granted2
  {
    hide Reserve, Cancel, Revoke, RecordForeground, Bind, After;
    ChangeOfIs(w.tables, "b", w.bodies["b"], Conclude(5, 8));
  }

  /** A recovery settles generation 3 while a capability that was reserved for generation 2 is open. */
  lemma SettlingMayLeaveToken() returns (ws: seq<World>, actions: seq<Action>)
    ensures IsRun(ws, actions) && |actions| >= 1 && actions[|actions| - 1] == On(Conclude(5, 8))
    ensures ws[|ws| - 2].tables.lanes == map["b" := ThirdLane] && ThirdLane.state == Relaunching
    ensures ws[|ws| - 1].tables.lanes
            == map["b" := ThirdLane.(state := ShellIdle, launchProvider := None, updatedAt := 8)]
    ensures ws[|ws| - 1].tables.launches == Granted2 && Unclaimed(Granted2["second"], "b")
  {
    hide Then, CanHappen;
    ws, actions := StrayBindsNext();
    SeesShell(ws[|ws| - 1]);
    ws, actions := Extend(ws, actions, On(ForegroundBecomes(Shell)));
    ws, actions := Extend(ws, actions, On(ReadLane(4)));
    SeesIdleAgain(ws[|ws| - 1]);
    ws, actions := Extend(ws, actions, On(SeeIdle(4)));
    ExitsAgain(ws[|ws| - 1]);
    ws, actions := Extend(ws, actions, On(LeaveRunning(4, 5)));
    ReadsIdle(ws[|ws| - 1]);
    ws, actions := Extend(ws, actions, On(ReadLane(5)));
    ChoosesAgain(ws[|ws| - 1]);
    ws, actions := Extend(ws, actions, On(Choose(5)));
    AdmitsThird(ws[|ws| - 1]);
    ws, actions := Extend(ws, actions, On(Admit(5, "claude", 6)));
    ReservesThird(ws[|ws| - 1]);
    ws, actions := Extend(ws, actions, On(ReserveToken(5, Third, 6, 6)));
    Scripts(ws[|ws| - 1]);
    ws, actions := Extend(ws, actions, On(WriteLauncher(5)));
    FailsLate(ws[|ws| - 1]);
    ws, actions := Extend(ws, actions, On(FailLate(5)));
    Unlinks(ws[|ws| - 1]);
    ws, actions := Extend(ws, actions, On(UnlinkLauncher(5)));
    Revokes(ws[|ws| - 1]);
    ws, actions := Extend(ws, actions, On(RevokeTokens(5)));
    ReservesLate(ws[|ws| - 1]);
    ws, actions := Extend(ws, actions, On(ReserveToken(3, Second, 7, 7)));
    ReadsAgain(ws[|ws| - 1]);
    ws, actions := Extend(ws, actions, On(ReadAgain(5)));
    Concludes(ws[|ws| - 1]);
    ws, actions := Extend(ws, actions, On(Conclude(5, 8)));
  }
}

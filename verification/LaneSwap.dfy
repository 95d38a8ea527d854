/**
 A run that hands a lane over: an agent of one provider leaves, and one of another provider is launched and binds it.
 */
module LaneSwap {
  import opened Wrappers
  import opened SessionTables
  import opened LaneProtocol
  import opened LaneSafety
  import opened LaneRuns
  import opened LaneWitness
  import opened BindRecovery

  const Vacated := RunningLane.(state := ProviderExited, foreground := None, updatedAt := 3)
  const Handed := Vacated.(state := Relaunching, generation := 2, launchProvider := Some("codex"), updatedAt := 4)
  const Other := Key("codex", "x")
  const Wanted := Request("other", "codex", None, "b", false, Project, Project, false, New, 600)
  const Allowed := map["other" := ReservedLaunch(Wanted, 4)]
  const Empty1 := LaneWitness.Running.(agents := map[], foreground := Shell)

  function With(lane: Lane, c: Cid, phase: Phase): Body {
    Empty1.(controllers := map[c := Controller(lane, phase)])
  }

  predicate Stands(w: World, lane: Lane, launches: map<Token, Launch>, body: Body) {
    Shows(w, lane, launches, body) && w.tables.records == map[]
  }

  lemma Leaves(w: World)
    requires Stands(w, RunningLane, Granted, LaneWitness.Running)
    ensures CanHappen(w, On(AgentEnds(1))) && Stands(Then(w, On(AgentEnds(1))), RunningLane, Granted, Empty1)
  {
    hide Reserve, Cancel, Revoke, RecordForeground, Bind, Transition;
    var w1 := Then(w, On(AgentEnds(1)));
    assert w1.bodies["b"].agents == map[];
  }

  lemma Reads(w: World, lane: Lane, c: Cid)
    requires Stands(w, lane, Granted, Empty1)
    ensures CanHappen(w, On(ReadLane(c))) && Stands(Then(w, On(ReadLane(c))), lane, Granted, With(lane, c, Looking))
  {
    hide Reserve, Cancel, Revoke, RecordForeground, Bind, Transition;
  }

  lemma Looks(w: World)
    requires Stands(w, RunningLane, Granted, With(RunningLane, 2, Looking))
    ensures CanHappen(w, On(SeeIdle(2)))
    ensures Stands(Then(w, On(SeeIdle(2))), RunningLane, Granted, With(RunningLane, 2, Idle))
  {
    hide Reserve, Cancel, Revoke, RecordForeground, Bind, Transition;
    var s := Move(w.bodies["b"], 2, Idle);
    assert s.controllers == map[2 := Controller(RunningLane, Idle)];
    assert Over(s, 1);
  }

  lemma Exits(w: World)
    requires Stands(w, RunningLane, Granted, With(RunningLane, 2, Idle))
    ensures CanHappen(w, On(LeaveRunning(2, 3))) && Stands(Then(w, On(LeaveRunning(2, 3))), Vacated, Granted, Empty1)
  {
    hide Reserve, Cancel, Revoke, RecordForeground, Bind, After;
    ChangeOfIs(w.tables, "b", w.bodies["b"], LeaveRunning(2, 3));
    var w1 := Then(w, On(LeaveRunning(2, 3)));
    assert w1.tables.lanes == map["b" := Vacated] && w1.bodies["b"].controllers == map[];
  }

  lemma Chooses(w: World)
    requires Stands(w, Vacated, Granted, With(Vacated, 3, Looking))
    ensures CanHappen(w, On(Choose(3))) && Stands(Then(w, On(Choose(3))), Vacated, Granted, With(Vacated, 3, Chosen))
  {
    hide Reserve, Cancel, Revoke, RecordForeground, Bind, Transition;
    assert Then(w, On(Choose(3))).bodies["b"].controllers == With(Vacated, 3, Chosen).controllers;
  }

  lemma AdmitsOther(w: World)
    requires Stands(w, Vacated, Granted, With(Vacated, 3, Chosen))
    ensures CanHappen(w, On(Admit(3, "codex", 4)))
    ensures Stands(Then(w, On(Admit(3, "codex", 4))), Handed, Granted, With(Handed, 3, Admitted))
  {
    hide Reserve, Cancel, Revoke, RecordForeground, Bind;
    var n := After(w.tables, "b", w.bodies["b"], Admit(3, "codex", 4));
    assert n.tables.lanes == map["b" := Handed];
    assert n.body.controllers == With(Handed, 3, Admitted).controllers;
  }

  function Granting(phase: Phase): Body {
    With(Handed, 3, phase).(issued := {(1, "token"), (2, "other")})
  }

  lemma Revokes1(t: Tables)
    requires t.launches == Granted
    ensures Reserve(t, Wanted, 4, 4) == Step(t.(launches := Allowed), Done)
  {
    assert Unexpired(Granted, 4) == Granted && WithoutUnclaimed(Granted, "b") == map[];
  }

  lemma ReservesOther(w: World)
    requires Stands(w, Handed, Granted, With(Handed, 3, Admitted))
    ensures CanHappen(w, On(ReserveToken(3, Wanted, 4, 4)))
    ensures Stands(Then(w, On(ReserveToken(3, Wanted, 4, 4))), Handed, Allowed, Granting(Holding("other")))
  {
    hide Reserve, Cancel, Revoke, RecordForeground, Bind, Transition;
    Revokes1(w.tables);
    var n := After(w.tables, "b", w.bodies["b"], ReserveToken(3, Wanted, 4, 4));
    assert n.body.controllers == Granting(Holding("other")).controllers;
    assert n.body.issued == {(1, "token"), (2, "other")};
  }

  lemma Writes1(w: World)
    requires Stands(w, Handed, Allowed, Granting(Holding("other")))
    ensures CanHappen(w, On(WriteLauncher(3)))
    ensures Stands(Then(w, On(WriteLauncher(3))), Handed, Allowed,
                  Granting(Scripted("other")).(files := map[2 := "other"]))
  {
    hide Reserve, Cancel, Revoke, RecordForeground, Bind, Transition;
    var w1 := Then(w, On(WriteLauncher(3)));
    assert w1.bodies["b"].controllers == Granting(Scripted("other")).controllers;
  }

  lemma Types1(w: World)
    requires Stands(w, Handed, Allowed, Granting(Scripted("other")).(files := map[2 := "other"]))
    ensures CanHappen(w, On(TypeLauncher(3)))
    ensures Stands(Then(w, On(TypeLauncher(3))), Handed, Allowed,
                  Granting(Typed).(files := map[2 := "other"], typed := {2}))
  {
    hide Reserve, Cancel, Revoke, RecordForeground, Bind, Transition;
    var w1 := Then(w, On(TypeLauncher(3)));
    assert w1.bodies["b"].controllers == Granting(Typed).controllers && w1.bodies["b"].typed == {2};
  }

  const Launched := Granting(Typed).(agents := map[2 := Agent("other", 5)], foreground := Job(5))

  lemma Starts1(w: World)
    requires Stands(w, Handed, Allowed, Granting(Typed).(files := map[2 := "other"], typed := {2}))
    ensures CanHappen(w, On(LauncherStarts(2, 5)))
        && Stands(Then(w, On(LauncherStarts(2, 5))), Handed, Allowed, Launched)
  {
    hide Reserve, Cancel, Revoke, RecordForeground, Bind, Transition;
    var w1 := Then(w, On(LauncherStarts(2, 5)));
    assert w1.bodies["b"].files == map[] && w1.bodies["b"].typed == {}
        && w1.bodies["b"].agents == map[2 := Agent("other", 5)];
  }

  const Taken1 := Handed.(state := ProviderRunning, bound := Some(Other), lastBoundAt := Some(5), updatedAt := 5)
  const OtherHook := Hook("other", Other, "b", Project)

  lemma OtherBindsTables(t: Tables)
    requires t.lanes == map["b" := Handed] && t.launches == Allowed && Other !in t.records
    ensures Bind(t, OtherHook, 5, 4).tables.lanes == map["b" := Taken1] && Bind(t, OtherHook, 5, 4).outcome == Done
  {
    assert !AlreadyRuns(t, OtherHook) && CapabilityRefusal(t, OtherHook, 5).None?;
    var t' := WithRecord(ClaimFor(t, OtherHook), OtherHook, 5);
    assert t'.lanes == t.lanes && CanFinalize(t'.lanes, "b", Other);
    assert Finalized(t'.lanes, "b", Other, 5) == map["b" := Taken1];
  }

  lemma OtherBinds(w: World)
    requires Stands(w, Handed, Allowed, Launched)
    ensures CanHappen(w, On(HookFires(2, Other, Project, 5, 4)))
    ensures Then(w, On(HookFires(2, Other, Project, 5, 4))).tables.lanes == map["b" := Taken1]
  {
    hide Reserve, Cancel, Revoke, RecordForeground, Transition, Bind;
    OtherBindsTables(w.tables);
  }

  lemma HandsOver() returns (ws: seq<World>, actions: seq<Action>)
    ensures IsRun(ws, actions)
    ensures Stands(ws[|ws| - 1], Vacated, Granted, Empty1)
  {
    hide Then, CanHappen;
    ws, actions := StartsAgent();
    assert Stands(ws[|ws| - 1], RunningLane, Granted, LaneWitness.Running);
    Leaves(ws[|ws| - 1]);
    ws, actions := Extend(ws, actions, On(AgentEnds(1)));
    Reads(ws[|ws| - 1], RunningLane, 2);
    ws, actions := Extend(ws, actions, On(ReadLane(2)));
    Looks(ws[|ws| - 1]);
    ws, actions := Extend(ws, actions, On(SeeIdle(2)));
    Exits(ws[|ws| - 1]);
    ws, actions := Extend(ws, actions, On(LeaveRunning(2, 3)));
  }

  lemma Relaunches() returns (ws: seq<World>, actions: seq<Action>, i: nat)
    ensures IsRun(ws, actions) && i < |ws| && ws[i].tables.lanes == map["b" := Vacated]
    ensures Stands(ws[|ws| - 1], Handed, Allowed, Granting(Holding("other")))
  {
    hide Then, CanHappen;
    ws, actions := HandsOver();
    i := |ws| - 1;
    Reads(ws[|ws| - 1], Vacated, 3);
    ws, actions := Extend(ws, actions, On(ReadLane(3)));
    Chooses(ws[|ws| - 1]);
    ws, actions := Extend(ws, actions, On(Choose(3)));
    AdmitsOther(ws[|ws| - 1]);
    ws, actions := Extend(ws, actions, On(Admit(3, "codex", 4)));
    ReservesOther(ws[|ws| - 1]);
    ws, actions := Extend(ws, actions, On(ReserveToken(3, Wanted, 4, 4)));
  }

  /** A lane that an agent of one provider has left is bound by a conversation of another one. */
  lemma SwapsProvider() returns (ws: seq<World>, actions: seq<Action>, i: nat)
    ensures IsRun(ws, actions) && i < |ws|
    ensures ws[i].tables.lanes == map["b" := Vacated] && Vacated.launchProvider == Some("claude")
    ensures ws[|ws| - 1].tables.lanes == map["b" := Taken1]
    ensures Taken1.launchProvider == Some("codex") && Taken1.bound == Some(Other)
  {
    hide Then, CanHappen;
    ws, actions, i := Relaunches();
    Writes1(ws[|ws| - 1]);
    ws, actions := Extend(ws, actions, On(WriteLauncher(3)));
    Types1(ws[|ws| - 1]);
    ws, actions := Extend(ws, actions, On(TypeLauncher(3)));
    Starts1(ws[|ws| - 1]);
    ws, actions := Extend(ws, actions, On(LauncherStarts(2, 5)));
    OtherBinds(ws[|ws| - 1]);
    ws, actions := Extend(ws, actions, On(HookFires(2, Other, Project, 5, 4)));
  }
}

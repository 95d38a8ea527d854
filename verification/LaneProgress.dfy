/**
 What a controller can do next, and that a dispatch and a recovery come to their ends when nobody interferes.
 */
module LaneProgress {
  import opened Wrappers
  import opened SessionTables
  import opened LaneProtocol
  import SessionRecords

  /**
   A controller that waits: its lane is destroyed, another dispatch is under way, or somebody else's job is in front.
   */
  predicate Waits(s: Body, ct: Controller) {
    && ct.phase == Looking
    && (|| ct.lane.state == Destroyed
        || (ct.lane.state in {LaunchReserved, Relaunching} && !NoDispatch(s, ct.lane.generation))
        || (ct.lane.state == ProviderRunning && ct.lane.foreground.None? && !NoDispatch(s, ct.lane.generation)
            && s.foreground.Job?)
        || (ct.lane.state == ProviderRunning && ct.lane.foreground.Some? && s.foreground.Job?
            && s.foreground.group != ct.lane.foreground.value))
  }

  /** The step by which a controller goes on. */
  function NextOf(s: Body, c: Cid, provider: string, at: int): Event
    requires c in s.controllers
  {
    var ct := s.controllers[c];
    match ct.phase
    case Chosen => Admit(c, provider, at)
    case Admitted => FailEarly(c)
    case Holding(_) => WriteLauncher(c)
    case Scripted(_) => if s.foreground == Shell then TypeLauncher(c) else FindBusy(c)
    case Typed => if s.foreground == Shell then FailLate(c) else SeeForeground(c)
    case Seen(_) => NoteForeground(c, at)
    case Abandoning(_) => RemoveLauncher(c)
    case Unscripted(_) => WithdrawToken(c)
    case Withdrawn => GiveUp(c, at)
    case Recovering => UnlinkLauncher(c)
    case Missing => ObserveForeground(c)
    case Busy(_) => NoteBusy(c, at)
    case Finished(_) => RevokeTokens(c)
    case Revoked(_) => ReadAgain(c)
    case Reread(_) => Conclude(c, at)
    case BodyGone => DestroyLane(c, at)
    case Idle => LeaveRunning(c, at)
    case Looking =>
      if ct.lane.state == Provisional then OpenShell(c, at)
      else if ct.lane.state in {ShellIdle, ProviderExited} then Choose(c)
      else if ct.lane.state == ProviderRunning && s.foreground == Shell then SeeIdle(c)
      else if ct.lane.state == ProviderRunning && ct.lane.foreground.Some? then StopJob(c)
      else StartRecovery(c)
  }

  /** Every controller can go on, in whatever phase it is, unless it waits. */
  lemma CanGoOn(t: Tables, b: BodyId, s: Body, c: Cid, provider: string, at: int)
    requires b in t.lanes && c in s.controllers && !Waits(s, s.controllers[c])
    ensures Enabled(t, b, s, NextOf(s, c, provider, at))
  {
    hide NoDispatch;
  }

  // ---- a recovery that nobody interferes with ----

  /** The events, one after the other, lead from one state to the other. */
  ghost predicate Leads(n: Next, b: BodyId, es: seq<Event>, n': Next)
    decreases |es|
  {
    if es == [] then n' == n
    else Enabled(n.tables, b, n.body, es[0]) && Leads(After(n.tables, b, n.body, es[0]), b, es[1..], n')
  }

  lemma {:induction false} LeadsOn(n: Next, b: BodyId, e: Event, es: seq<Event>, n': Next)
    requires Enabled(n.tables, b, n.body, e) && Leads(After(n.tables, b, n.body, e), b, es, n')
    ensures Leads(n, b, [e] + es, n')
  {
    hide After, Enabled;
    assert ([e] + es)[1..] == es;
  }

  /** A recovery in this phase, of the generation in which its lane still is, with the shell in front. */
  predicate Ahead(n: Next, b: BodyId, c: Cid, phase: Phase, lane: Lane) {
    && b in n.tables.lanes && n.tables.lanes[b] == lane && Bindable(lane.state)
    && At(n.body, c, phase) && n.body.controllers[c].lane.generation == lane.generation && n.body.foreground == Shell
  }

  /**
   How the lane is left: as not run if the launcher was still there, as ended otherwise; with nothing to launch it by.
   */
  predicate SettledAs(n: Next, b: BodyId, c: Cid, lane: Lane, ran: bool) {
    && b in n.tables.lanes && n.tables.lanes[b].generation == lane.generation
    && n.tables.lanes[b].state == (if ran then ProviderExited else ShellIdle)
    && Open(n.tables, b) == {} && lane.generation !in n.body.files && c !in n.body.controllers
  }

  lemma {:induction false} ConcludesIt(n: Next, b: BodyId, c: Cid, lane: Lane, ran: bool, at: int) returns (n': Next)
    requires Ahead(n, b, c, Reread(ran), lane) && n.body.controllers[c].lane == lane
    requires Open(n.tables, b) == {} && lane.generation !in n.body.files
    ensures Leads(n, b, [Conclude(c, at)], n') && SettledAs(n', b, c, lane, ran)
  {
    n' := After(n.tables, b, n.body, Conclude(c, at));
    LeadsOn(n, b, Conclude(c, at), [], n') by { assert Leads(n', b, [], n'); }
    assert [Conclude(c, at)] + [] == [Conclude(c, at)];
    assert n'.tables.launches == n.tables.launches;
  }

  lemma {:induction false} ReadsAgainIt(n: Next, b: BodyId, c: Cid, lane: Lane, ran: bool, at: int) returns (n': Next)
    requires Ahead(n, b, c, Revoked(ran), lane) && Open(n.tables, b) == {} && lane.generation !in n.body.files
    ensures Leads(n, b, [ReadAgain(c), Conclude(c, at)], n') && SettledAs(n', b, c, lane, ran)
  {
    hide Transition, Leads, SettledAs;
    var m := After(n.tables, b, n.body, ReadAgain(c));
    n' := ConcludesIt(m, b, c, lane, ran, at);
    LeadsOn(n, b, ReadAgain(c), [Conclude(c, at)], n');
    assert [ReadAgain(c)] + [Conclude(c, at)] == [ReadAgain(c), Conclude(c, at)];
  }

  lemma {:induction false} RevokesIt(n: Next, b: BodyId, c: Cid, lane: Lane, ran: bool, at: int) returns (n': Next)
    requires Ahead(n, b, c, Finished(ran), lane) && lane.generation !in n.body.files
    ensures Leads(n, b, [RevokeTokens(c), ReadAgain(c), Conclude(c, at)], n') && SettledAs(n', b, c, lane, ran)
  {
    hide Transition, Leads, SettledAs;
    var m := After(n.tables, b, n.body, RevokeTokens(c));
    assert m.tables.lanes == n.tables.lanes && Open(m.tables, b) == {};
    n' := ReadsAgainIt(m, b, c, lane, ran, at);
    LeadsOn(n, b, RevokeTokens(c), [ReadAgain(c), Conclude(c, at)], n');
    assert [RevokeTokens(c)] + [ReadAgain(c), Conclude(c, at)] == [RevokeTokens(c), ReadAgain(c), Conclude(c, at)];
  }

  lemma {:induction false} ObservesIt(n: Next, b: BodyId, c: Cid, lane: Lane, at: int)
      returns (n': Next, es: seq<Event>)
    requires Ahead(n, b, c, Missing, lane) && lane.generation !in n.body.files
    ensures |es| == 4 && Leads(n, b, es, n') && SettledAs(n', b, c, lane, true)
  {
    hide Transition, Leads, SettledAs, Over;
    var m := After(n.tables, b, n.body, ObserveForeground(c));
    n' := RevokesIt(m, b, c, lane, true, at);
    es := [ObserveForeground(c)] + [RevokeTokens(c), ReadAgain(c), Conclude(c, at)];
    LeadsOn(n, b, ObserveForeground(c), [RevokeTokens(c), ReadAgain(c), Conclude(c, at)], n');
  }

  /**
   A recovery that nobody interferes with, with the shell in front, settles its generation in at most five steps: as not
   run when the launcher file is still there, as ended otherwise; the file is gone and no capability of the body is
   open.
   */
  lemma {:induction false} RecoverySettles(t: Tables, b: BodyId, s: Body, c: Cid, at: int)
      returns (es: seq<Event>, n': Next)
    requires b in t.lanes && Ahead(Next(t, s), b, c, Recovering, t.lanes[b])
    ensures |es| <= 5 && Leads(Next(t, s), b, es, n')
    ensures SettledAs(n', b, c, t.lanes[b], t.lanes[b].generation !in s.files)
  {
    hide Leads, SettledAs, Transition;
    var lane := t.lanes[b];
    var m := After(t, b, s, UnlinkLauncher(c));
    if lane.generation in s.files {
      n' := RevokesIt(m, b, c, lane, false, at);
      es := [UnlinkLauncher(c)] + [RevokeTokens(c), ReadAgain(c), Conclude(c, at)];
      LeadsOn(Next(t, s), b, UnlinkLauncher(c), [RevokeTokens(c), ReadAgain(c), Conclude(c, at)], n');
    } else {
      var rest;
      n', rest := ObservesIt(m, b, c, lane, at);
      es := [UnlinkLauncher(c)] + rest;
      LeadsOn(Next(t, s), b, UnlinkLauncher(c), rest, n');
    }
  }

  // ---- a dispatch that nobody interferes with ----

  /** A dispatch in this phase, of the generation in which its lane still is, with the shell in front. */
  predicate Under(n: Next, b: BodyId, c: Cid, phase: Phase, lane: Lane) {
    Ahead(n, b, c, phase, lane) && n.body.controllers[c].lane == lane && Starting(lane.state)
  }

  predicate Granted(t: Tables, r: Request, at: int) {
    r.token in t.launches && t.launches[r.token] == ReservedLaunch(r, at)
  }

  /** The lane runs an agent of this process group, started with this capability, which is still good. */
  predicate Runs(n: Next, b: BodyId, lane: Lane, r: Request, at: int, group: int) {
    && b in n.tables.lanes
        && n.tables.lanes[b] == lane.(state := ProviderRunning, foreground := Some(group), updatedAt := at)
    && lane.generation in n.body.agents && n.body.agents[lane.generation] == Agent(r.token, group)
    && lane.generation !in n.body.files && n.body.foreground == Job(group) && Granted(n.tables, r, at)
  }

  lemma {:induction false} NotesIt(n: Next, b: BodyId, c: Cid, lane: Lane, r: Request, at: int, group: int)
      returns (n': Next)
    requires b in n.tables.lanes && n.tables.lanes[b] == lane && Starting(lane.state) && group > 1
    requires At(n.body, c, Typed) && n.body.controllers[c].lane == lane && n.body.foreground == Job(group)
    requires lane.generation in n.body.agents && n.body.agents[lane.generation] == Agent(r.token, group)
    requires lane.generation !in n.body.files && Granted(n.tables, r, at)
    ensures Leads(n, b, [SeeForeground(c), NoteForeground(c, at)], n') && Runs(n', b, lane, r, at, group)
  {
    var m := After(n.tables, b, n.body, SeeForeground(c));
    n' := After(m.tables, b, m.body, NoteForeground(c, at));
    assert n'.tables.launches == n.tables.launches;
    LeadsOn(m, b, NoteForeground(c, at), [], n') by { assert Leads(n', b, [], n'); }
    assert [NoteForeground(c, at)] + [] == [NoteForeground(c, at)];
    LeadsOn(n, b, SeeForeground(c), [NoteForeground(c, at)], n');
    assert [SeeForeground(c)] + [NoteForeground(c, at)] == [SeeForeground(c), NoteForeground(c, at)];
  }

  lemma {:induction false} StartsIt(n: Next, b: BodyId, c: Cid, lane: Lane, r: Request, at: int, group: int)
      returns (n': Next)
    requires Under(n, b, c, Typed, lane) && Granted(n.tables, r, at) && group > 1
    requires lane.generation in n.body.typed && lane.generation in n.body.files
             && n.body.files[lane.generation] == r.token
    ensures Leads(n, b, [LauncherStarts(lane.generation, group), SeeForeground(c), NoteForeground(c, at)], n')
    ensures Runs(n', b, lane, r, at, group)
  {
    hide Leads, Runs, Transition;
    var e, rest := LauncherStarts(lane.generation, group), [SeeForeground(c), NoteForeground(c, at)];
    var m := After(n.tables, b, n.body, e);
    n' := NotesIt(m, b, c, lane, r, at, group);
    LeadsOn(n, b, e, rest, n');
    assert [e] + rest == [e, SeeForeground(c), NoteForeground(c, at)];
  }

  lemma {:induction false} TypesIt(n: Next, b: BodyId, c: Cid, lane: Lane, r: Request, at: int, group: int)
      returns (n': Next, es: seq<Event>)
    requires Under(n, b, c, Holding(r.token), lane) && Granted(n.tables, r, at) && group > 1
    ensures Leads(n, b, es, n') && Runs(n', b, lane, r, at, group)
  {
    hide Leads, Runs, Transition;
    var m := After(n.tables, b, n.body, WriteLauncher(c));
    var l := After(m.tables, b, m.body, TypeLauncher(c));
    n' := StartsIt(l, b, c, lane, r, at, group);
    es := [LauncherStarts(lane.generation, group), SeeForeground(c), NoteForeground(c, at)];
    LeadsOn(m, b, TypeLauncher(c), es, n');
    LeadsOn(n, b, WriteLauncher(c), [TypeLauncher(c)] + es, n');
    es := [WriteLauncher(c)] + ([TypeLauncher(c)] + es);
  }

  lemma {:induction false} ReservesIt(n: Next, b: BodyId, c: Cid, lane: Lane, r: Request, at: int, later: int,
      group: int)
      returns (n': Next, es: seq<Event>)
    requires Under(n, b, c, Admitted, lane) && group > 1 && lane.launchProvider == Some(r.provider)
    requires r.bodyId == b && !r.newBody && !Issued(n.body, r.token)
    requires SessionRecords.MayReserve(n.tables, r, at, later)
    ensures Leads(n, b, es, n') && Runs(n', b, lane, r, at, group)
  {
    hide Leads, Runs, Transition, Reserve, SessionRecords.MayReserve;
    var e := ReserveToken(c, r, at, later);
    var m := After(n.tables, b, n.body, e);
    SessionRecords.Reserves(n.tables, r, at, later);
    n', es := TypesIt(m, b, c, lane, r, at, group);
    LeadsOn(n, b, e, es, n');
    es := [e] + es;
  }

  lemma SameLaunches(t: Tables, t': Tables, r: Request, at: int, later: int)
    requires t'.records == t.records && t'.launches == t.launches
    ensures SessionRecords.MayReserve(t', r, at, later) <==> SessionRecords.MayReserve(t, r, at, later)
  {
    forall token
      ensures SessionRecords.Surviving(t', r, at, later, token) <==> SessionRecords.Surviving(t, r, at, later, token) {}
  }

  /**
   A dispatch that nobody interferes with, into an idle lane with the shell in front, for a request that may be granted,
   ends with its agent running and noted in the lane: the next generation, for the provider asked for, with a capability
   that is good.
   */
  lemma {:induction false} DispatchLaunches(t: Tables, b: BodyId, s: Body, c: Cid, r: Request, at: int,
      later: int, group: int)
      returns (es: seq<Event>, n': Next)
    requires b in t.lanes && At(s, c, Looking) && s.controllers[c].lane == t.lanes[b] && s.foreground == Shell
    requires t.lanes[b].state in {ShellIdle, ProviderExited} && group > 1
    requires r.bodyId == b && !r.newBody && !Issued(s, r.token) && SessionRecords.MayReserve(t, r, at, later)
    ensures Leads(Next(t, s), b, es, n') && b in n'.tables.lanes
    ensures var lane, g := n'.tables.lanes[b], t.lanes[b].generation + 1;
            && lane.state == ProviderRunning && lane.generation == g && lane.launchProvider == Some(r.provider)
            && lane.foreground == Some(group) && lane.bound.None?
            && g in n'.body.agents && n'.body.agents[g] == Agent(r.token, group)
            && r.token in n'.tables.launches && n'.tables.launches[r.token] == ReservedLaunch(r, at)
  {
    hide Leads, Reserve, SessionRecords.MayReserve;
    var m := After(t, b, s, Choose(c));
    var l := After(m.tables, b, m.body, Admit(c, r.provider, at));
    AdmitsIt(m, b, c, r.provider, at);
    SameLaunches(t, l.tables, r, at, later);
    var rest;
    n', rest := ReservesIt(l, b, c, l.tables.lanes[b], r, at, later, group);
    LeadsOn(m, b, Admit(c, r.provider, at), rest, n');
    LeadsOn(Next(t, s), b, Choose(c), [Admit(c, r.provider, at)] + rest, n');
    es := [Choose(c)] + ([Admit(c, r.provider, at)] + rest);
  }

  lemma AdmitsIt(n: Next, b: BodyId, c: Cid, provider: string, at: int)
    requires b in n.tables.lanes && At(n.body, c, Chosen) && n.body.controllers[c].lane == n.tables.lanes[b]
    requires n.body.foreground == Shell
    ensures Enabled(n.tables, b, n.body, Admit(c, provider, at))
    ensures var l := After(n.tables, b, n.body, Admit(c, provider, at));
            && b in l.tables.lanes && Under(l, b, c, Admitted, l.tables.lanes[b])
            && l.tables.lanes[b].generation == n.tables.lanes[b].generation + 1
            && l.tables.lanes[b].launchProvider == Some(provider) && l.tables.lanes[b].bound.None?
            && l.tables.records == n.tables.records && l.tables.launches == n.tables.launches
            && l.body.issued == n.body.issued
  {}
}

/**
 The managed-lane protocol as a state machine.

 A lane is a shell that outlives the agents it runs.  Controllers (dispatch,
 recovery, settling, stopping, destroying) read a lane, look at the terminal,
 and later change the lane by compare-and-swap, each in separate steps, so a
 controller may act on a reading that is long out of date.  A controller may
 die between any two steps.  Every launch is typed into the shell as a launcher
 file that deletes itself before it does anything else.

 The terminal belongs to the user: its foreground may change at any time, a
 live agent may be in the background, and a typed launcher may wait behind a
 job of the user or be lost to it.

 Assumptions about the world outside, each a guard of one event:
 (a) a provider hook fires only while its process is alive (HookFires);
 (b) a launcher opens and deletes itself in one step (LauncherStarts);
 (c) a dispatch that is old enough to be recovered by another controller has
     no live controller of its own (StartRecovery);
 (d) a generated token is new to its body (ReserveToken).
 */
module LaneProtocol {
  import opened Wrappers
  import opened SessionTables

  datatype Foreground = Shell | Job(group: int)

  /** A live process, started by the launcher of one generation. */
  datatype Agent = Agent(token: Token, group: int)

  datatype Phase =
    // dispatch, until the launcher is typed
    | Chosen | Admitted | Holding(token: Token) | Scripted(token: Token)
    // dispatch, afterwards
    | Typed | Seen(group: int)
    // dispatch that failed before typing
    | Abandoning(reserved: Option<Token>) | Unscripted(reserved: Option<Token>) | Withdrawn
    // recovery of a dispatch
    | Recovering | Missing | Busy(group: int) | Finished(ran: bool) | Revoked(ran: bool) | Reread(ran: bool)
    // settling, stopping, destroying
    | Looking | BodyGone | Idle

  /** A controller holds the lane record that it last read or wrote. */
  datatype Controller = Controller(lane: Lane, phase: Phase)

  type Cid = nat

  datatype Body = Body(
    files: map<nat, Token>,            // launcher files, by generation
    typed: set<nat>,                   // launchers typed and not yet read by the shell
    agents: map<nat, Agent>,           // live processes, by the generation they were started for
    foreground: Foreground,
    controllers: map<Cid, Controller>,
    everBound: set<(nat, Key)>,        // history: which identity was published in which generation
    issued: set<(nat, Token)>,         // history: which capability was reserved for which generation
    misled: bool)                      // history: see Judged

  datatype Event =
    | ReadLane(c: Cid)
    | OpenShell(c: Cid, at: int)
    | FailCreation(c: Cid, at: int)
    | Choose(c: Cid)
    | Admit(c: Cid, provider: string, at: int)
    | ReserveToken(c: Cid, request: Request, at: int, later: int)
    | WriteLauncher(c: Cid)
    | FailEarly(c: Cid)
    | FindBusy(c: Cid)
    | TypeLauncher(c: Cid)
    | SeeForeground(c: Cid)
    | FailLate(c: Cid)
    | NoteForeground(c: Cid, at: int)
    | RemoveLauncher(c: Cid)
    | WithdrawToken(c: Cid)
    | GiveUp(c: Cid, at: int)
    | StartRecovery(c: Cid)
    | UnlinkLauncher(c: Cid)
    | ObserveForeground(c: Cid)
    | NoteBusy(c: Cid, at: int)
    | RevokeTokens(c: Cid)
    | ReadAgain(c: Cid)
    | Conclude(c: Cid, at: int)
    | SeeBodyGone(c: Cid)
    | DestroyLane(c: Cid, at: int)
    | SeeIdle(c: Cid)
    | StopJob(c: Cid)
    | LeaveRunning(c: Cid, at: int)
    | Crash(c: Cid)
    | LauncherStarts(generation: nat, group: int)
    | LineLost(generation: nat)
    | AgentEnds(generation: nat)
    | ForegroundBecomes(foreground: Foreground)
    | HookFires(generation: nat, key: Key, project: string, at: int, writes: nat)

  predicate Starting(state: LaneState) {
    state == LaunchReserved || state == Relaunching
  }

  predicate Ready(state: LaneState) {
    state == ShellIdle || state == ProviderExited
  }

  predicate Dispatches(p: Phase) {
    p.Admitted? || p.Holding? || p.Scripted? || p.Typed? || p.Seen? || p.Abandoning? || p.Unscripted? || p.Withdrawn?
  }

  predicate At(s: Body, c: Cid, phase: Phase) {
    c in s.controllers && s.controllers[c].phase == phase
  }

  function Move(s: Body, c: Cid, phase: Phase): Body
    requires c in s.controllers
  {
    s.(controllers := s.controllers[c := s.controllers[c].(phase := phase)])
  }

  function Ends(s: Body, c: Cid): Body {
    s.(controllers := s.controllers - {c})
  }

  function Grips(s: Body, c: Cid, lane: Lane, phase: Phase): Body {
    s.(controllers := s.controllers[c := Controller(lane, phase)])
  }

  predicate Issued(s: Body, token: Token) {
    exists p | p in s.issued :: p.1 == token
  }

  /** The launcher of this generation is gone and nobody will write it again. */
  predicate Ran(s: Body, generation: nat) {
    generation !in s.files &&
    forall c | c in s.controllers :: s.controllers[c].phase.Admitted? || s.controllers[c].phase.Holding? ==>
      s.controllers[c].lane.generation != generation
  }

  /** No process of this generation lives, and none will start. */
  predicate Over(s: Body, generation: nat) {
    Ran(s, generation) && generation !in s.agents
  }

  /**
   A controller found the shell in front and takes the generation for over.  It is misled when the launcher still
   waits or the process lives in the background.
   */
  function Judged(s: Body, generation: nat): Body {
    if Over(s, generation) then s else s.(misled := true)
  }

  function WithoutGroup(agents: map<nat, Agent>, group: int): map<nat, Agent> {
    map g | g in agents && agents[g].group != group :: agents[g]
  }

  predicate NoDispatch(s: Body, generation: nat) {
    forall c | c in s.controllers :: Dispatches(s.controllers[c].phase) ==>
      s.controllers[c].lane.generation != generation
  }

  /** Whether the event can happen to body `b` in state `s` with tables `t`. */
  predicate Enabled(t: Tables, b: BodyId, s: Body, e: Event) {
    b in t.lanes &&
    match e
    case ReadLane(c) => c !in s.controllers
    case OpenShell(c, _) => At(s, c, Looking) && s.controllers[c].lane.state == Provisional
    case FailCreation(c, _) =>
      At(s, c, Looking) && (s.controllers[c].lane.state == Provisional || s.controllers[c].lane.state == ShellIdle)
    case Choose(c) => At(s, c, Looking) && Ready(s.controllers[c].lane.state)
    case Admit(c, _, _) => At(s, c, Chosen)
    case ReserveToken(c, r, _, _) =>
      At(s, c, Admitted) && r.bodyId == b && !r.newBody && !Issued(s, r.token)
      && s.controllers[c].lane.launchProvider == Some(r.provider)
    case WriteLauncher(c) => c in s.controllers && s.controllers[c].phase.Holding?
    case FailEarly(c) => c in s.controllers && (s.controllers[c].phase.Admitted? || s.controllers[c].phase.Holding?)
    case FindBusy(c) => c in s.controllers && s.controllers[c].phase.Scripted? && s.foreground != Shell
    case TypeLauncher(c) => c in s.controllers && s.controllers[c].phase.Scripted? && s.foreground == Shell
    case SeeForeground(c) => At(s, c, Typed) && s.foreground != Shell
    case FailLate(c) =>
      c in s.controllers
        && (s.controllers[c].phase.Scripted? || s.controllers[c].phase.Typed? || s.controllers[c].phase.Seen?)
    case NoteForeground(c, _) => c in s.controllers && s.controllers[c].phase.Seen?
    case RemoveLauncher(c) => c in s.controllers && s.controllers[c].phase.Abandoning?
    case WithdrawToken(c) => c in s.controllers && s.controllers[c].phase.Unscripted?
    case GiveUp(c, _) => At(s, c, Withdrawn)
    case StartRecovery(c) =>
      && At(s, c, Looking)
      && (Starting(s.controllers[c].lane.state)
          || (s.controllers[c].lane.state == ProviderRunning && s.controllers[c].lane.foreground.None?))
      && NoDispatch(s, s.controllers[c].lane.generation)
    case UnlinkLauncher(c) => At(s, c, Recovering)
    case ObserveForeground(c) => At(s, c, Missing)
    case NoteBusy(c, _) => c in s.controllers && s.controllers[c].phase.Busy?
    case RevokeTokens(c) => c in s.controllers && s.controllers[c].phase.Finished?
    case ReadAgain(c) => c in s.controllers && s.controllers[c].phase.Revoked?
    case Conclude(c, _) => c in s.controllers && s.controllers[c].phase.Reread?
    case SeeBodyGone(c) => At(s, c, Looking) && s.controllers[c].lane.state != Destroyed
    case DestroyLane(c, _) => At(s, c, BodyGone)
    case SeeIdle(c) => At(s, c, Looking) && s.controllers[c].lane.state == ProviderRunning && s.foreground == Shell
    case StopJob(c) =>
      At(s, c, Looking) && s.controllers[c].lane.state == ProviderRunning
      && s.foreground != Shell && s.controllers[c].lane.foreground == Some(s.foreground.group)
    case LeaveRunning(c, _) => At(s, c, Idle)
    case Crash(c) => c in s.controllers
    case LauncherStarts(g, _) => g in s.typed && g in s.files
    case LineLost(g) => g in s.typed
    case AgentEnds(g) => g in s.agents
    case ForegroundBecomes(_) => true
    case HookFires(g, _, _, _, _) => g in s.agents
  }

  /** The change of an exit keeps the identity that its controller read earlier. */
  function Exit(lane: Lane, target: LaneState): Change {
    Change(lane.state, Some(lane.generation), target, lane.bound, lane.launchProvider, None, lane.lastBoundAt, false)
  }

  function Reset(expected: LaneState, generation: Option<nat>, target: LaneState): Change {
    Change(expected, generation, target, None, None, None, None, false)
  }

  function Admission(lane: Lane, provider: string): Change {
    Change(lane.state, None, if lane.generation == 0 then LaunchReserved else Relaunching,
           None, Some(provider), None, None, true)
  }

  datatype Next = Next(tables: Tables, body: Body)

  function AfterChange(t: Tables, b: BodyId, s: Body, c: Cid, change: Change, at: int): Next {
    Next(Transition(t, b, change, at).tables, Ends(s, c))
  }

  function Remember(s: Body, lane: Lane): Body {
    if lane.bound.Some? then s.(everBound := s.everBound + {(lane.generation, lane.bound.value)}) else s
  }

  function After(t: Tables, b: BodyId, s: Body, e: Event): Next
    requires Enabled(t, b, s, e)
  {
    match e
    case ReadLane(c) => Next(t, Grips(s, c, t.lanes[b], Looking))
    case OpenShell(c, at) => AfterChange(t, b, s, c, Reset(Provisional, None, ShellIdle), at)
    case FailCreation(c, at) => AfterChange(t, b, s, c, Reset(s.controllers[c].lane.state, None, Destroyed), at)
    case Choose(c) => Next(t, Move(s, c, Chosen))
    case Admit(c, provider, at) =>
      var r := Transition(t, b, Admission(s.controllers[c].lane, provider), at);
      if r.outcome == Done then Next(r.tables, Grips(s, c, r.tables.lanes[b], Admitted)) else Next(t, Ends(s, c))
    case ReserveToken(c, r, at, later) =>
      var step := Reserve(t, r, at, later);
      Next(step.tables,
           if step.outcome == Done
           then Move(s, c, Holding(r.token)).(issued := s.issued + {(s.controllers[c].lane.generation, r.token)})
           else Move(s, c, Abandoning(None)))
    case WriteLauncher(c) =>
      var token := s.controllers[c].phase.token;
      Next(t, Move(s, c, Scripted(token)).(files := s.files[s.controllers[c].lane.generation := token]))
    case FailEarly(c) =>
      Next(t,
        Move(s, c, Abandoning(if s.controllers[c].phase.Holding? then Some(s.controllers[c].phase.token) else None)))
    case FindBusy(c) => Next(t, Move(s, c, Abandoning(Some(s.controllers[c].phase.token))))
    case TypeLauncher(c) => Next(t, Move(s, c, Typed).(typed := s.typed + {s.controllers[c].lane.generation}))
    case SeeForeground(c) => Next(t, Move(s, c, Seen(s.foreground.group)))
    case FailLate(c) => Next(t, Move(s, c, Recovering))
    case NoteForeground(c, at) =>
      var step := RecordForeground(t, b, s.controllers[c].lane.generation, s.controllers[c].phase.group, at);
      Next(step.tables, if step.outcome == Done then Ends(s, c) else Move(s, c, Recovering))
    case RemoveLauncher(c) =>
      Next(t,
        Move(s, c, Unscripted(s.controllers[c].phase.reserved)).(files := s.files - {s.controllers[c].lane.generation}))
    case WithdrawToken(c) =>
      var reserved := s.controllers[c].phase.reserved;
      Next(if reserved.Some? then Cancel(t, reserved.value, b, false).tables else t, Move(s, c, Withdrawn))
    case GiveUp(c, at) => AfterChange(t, b, s, c, Reset(s.controllers[c].lane.state, None, ShellIdle), at)
    case StartRecovery(c) => Next(t, Move(s, c, Recovering))
    case UnlinkLauncher(c) =>
      var g := s.controllers[c].lane.generation;
      if g in s.files then Next(t, Move(s, c, Finished(false)).(files := s.files - {g}))
        else Next(t, Move(s, c, Missing))
    case ObserveForeground(c) =>
      if s.foreground == Shell then Next(t, Judged(Move(s, c, Finished(true)), s.controllers[c].lane.generation))
      else Next(t, Move(s, c, Busy(s.foreground.group)))
    case NoteBusy(c, at) =>
      Next(RecordForeground(t, b, s.controllers[c].lane.generation, s.controllers[c].phase.group, at).tables,
        Ends(s, c))
    case RevokeTokens(c) => Next(Revoke(t, b), Move(s, c, Revoked(s.controllers[c].phase.ran)))
    case ReadAgain(c) =>
      if t.lanes[b].generation == s.controllers[c].lane.generation && Bindable(t.lanes[b].state)
      then Next(t, Grips(s, c, t.lanes[b], Reread(s.controllers[c].phase.ran)))
      else Next(t, Ends(s, c))
    case Conclude(c, at) =>
      var lane := s.controllers[c].lane;
      AfterChange(t, b, s, c,
                  if s.controllers[c].phase.ran then Exit(lane, ProviderExited)
                  else Reset(lane.state, Some(lane.generation), ShellIdle), at)
    case SeeBodyGone(c) => Next(t, Move(s, c, BodyGone))
    case DestroyLane(c, at) => AfterChange(t, b, s, c, Exit(s.controllers[c].lane, Destroyed), at)
    case SeeIdle(c) => Next(t, Judged(Move(s, c, Idle), s.controllers[c].lane.generation))
    case StopJob(c) =>
      var s' := s.(agents := WithoutGroup(s.agents, s.foreground.group), foreground := Shell);
      Next(t, Judged(Move(s', c, Idle), s.controllers[c].lane.generation))
    case LeaveRunning(c, at) => AfterChange(t, b, s, c, Exit(s.controllers[c].lane, ProviderExited), at)
    case Crash(c) => Next(t, Ends(s, c))
    case LauncherStarts(g, group) =>
      Next(t, s.(files := s.files - {g}, typed := s.typed - {g}, agents := s.agents[g := Agent(s.files[g], group)],
                 foreground := Job(group)))
    case LineLost(g) => Next(t, s.(typed := s.typed - {g}))
    case AgentEnds(g) =>
      Next(t,
        s.(agents := s.agents - {g}, foreground := if s.foreground == Job(s.agents[g].group) then Shell
        else s.foreground))
    case ForegroundBecomes(f) => Next(t, s.(foreground := f))
    case HookFires(g, key, project, at, writes) =>
      var t' := Bind(t, Hook(s.agents[g].token, key, b, project), at, writes).tables;
      Next(t', if b in t'.lanes then Remember(s, t'.lanes[b]) else s)
  }

  // ---- the invariant of one body ----

  predicate BeforeTyping(p: Phase) {
    Dispatches(p) && !p.Typed? && !p.Seen?
  }

  predicate Recovers(p: Phase) {
    p.Recovering? || p.Missing? || p.Busy? || p.Finished? || p.Revoked? || p.Reread?
  }

  /** What always holds of a reading: it is old, and what it says of identities is history. */
  predicate ReadingInv(lane: Lane, s: Body, read: Lane) {
    && read.generation <= lane.generation
    && (read.bound.Some? ==> (read.generation, read.bound.value) in s.everBound)
  }

  /** What always holds of a phase.  `open` are the capabilities of the body that nobody has claimed. */
  predicate PhaseReads(s: Body, open: set<Token>, read: Lane, p: Phase) {
    && (BeforeTyping(p) ==> Starting(read.state))
    && (p.Chosen? ==> Ready(read.state))
    && (p.BodyGone? ==> read.state != Destroyed)
    && (p.Reread? ==> Bindable(read.state))
    && (p.Idle? ==> read.state == ProviderRunning)
    && (p.Revoked? || p.Reread? ==> forall token | token in open :: (read.generation, token) !in s.issued)
  }

  /** What holds of a phase as long as no look at the terminal was misleading. */
  predicate PhaseInv(lane: Lane, s: Body, open: set<Token>, read: Lane, p: Phase) {
    var g := read.generation;
    && (BeforeTyping(p) ==>
          && (lane.state == Destroyed || (lane.generation == g && Starting(lane.state)))
          && g !in s.typed
          && g !in s.agents
          && (!p.Scripted? && !p.Abandoning? ==> g !in s.files))
    && (p.Finished? || p.Revoked? || p.Reread? || p.Idle? ==> Over(s, g))
    && ((p.Revoked? || p.Reread?) && lane.generation == g && Bindable(lane.state) ==> open == {})
  }

  predicate Exclusive(s: Body) {
    forall c, d | c in s.controllers && d in s.controllers && c != d && Dispatches(s.controllers[c].phase)
        && (Dispatches(s.controllers[d].phase) || Recovers(s.controllers[d].phase)) ::
      s.controllers[c].lane.generation != s.controllers[d].lane.generation
  }

  predicate HistoryInv(lane: Lane, s: Body) {
    && (forall p | p in s.everBound :: p.0 <= lane.generation)
    && (forall p | p in s.issued :: p.0 <= lane.generation)
    && (forall p, q | p in s.everBound && q in s.everBound && p.0 == q.0 :: p.1 == q.1)
    && (lane.bound.Some? ==> (lane.generation, lane.bound.value) in s.everBound)
    && (Bindable(lane.state) ==> forall p | p in s.everBound && p.0 == lane.generation :: lane.bound == Some(p.1))
  }

  predicate Belongs(lane: Lane, generation: nat) {
    lane.state == Destroyed || (generation == lane.generation && Bindable(lane.state))
  }

  predicate TerminalInv(lane: Lane, s: Body) {
    && (forall g | g in s.files :: Belongs(lane, g))
    && (forall g | g in s.agents :: Belongs(lane, g))
    && (forall g | g in s.typed :: g <= lane.generation)
    && (forall g | g in s.agents :: g !in s.files)
  }

  predicate ControllerInv(lane: Lane, s: Body, open: set<Token>, ct: Controller) {
    ReadingInv(lane, s, ct.lane) && PhaseReads(s, open, ct.lane, ct.phase)
    && (!s.misled ==> PhaseInv(lane, s, open, ct.lane, ct.phase))
  }

  predicate BodyInv(lane: Lane, s: Body, open: set<Token>) {
    && HistoryInv(lane, s)
    && Exclusive(s)
    && (!s.misled ==> TerminalInv(lane, s))
    && forall c | c in s.controllers :: ControllerInv(lane, s, open, s.controllers[c])
  }

  /** The capabilities of a body that nobody has claimed. */
  function Open(t: Tables, b: BodyId): set<Token> {
    set token | token in t.launches && Unclaimed(t.launches[token], b)
  }

  predicate Inv(t: Tables, b: BodyId, s: Body) {
    b in t.lanes && BodyInv(t.lanes[b], s, Open(t, b))
  }
}

/**
 The three durable tables of the session store: native session records, shell
 lanes and single-use launch capabilities.

 Every operation of the store is given here as a function from the tables it
 finds to the tables it leaves and its outcome.  An operation that is refused
 may still have changed something (expired and revoked launches are dropped
 before the later checks), so a refusal carries tables too.
 */
module SessionTables {
  import opened Wrappers

  type BodyId = string
  type Token = string

  /** A provider-native conversation. */
  datatype Key = Key(provider: string, sessionId: string)

  datatype RecordState = Unset | Running | Stopped | Tombstoned

  datatype Record = Record(
    createdAt: int, managed: bool, state: RecordState, name: Option<string>,
    bodyId: Option<BodyId>, project: Option<string>, resumeCwd: Option<string>, sandbox: bool,
    startedAt: Option<int>, stoppedAt: Option<int>, lostAt: Option<int>, destroyedAt: Option<int>)

  datatype LaneState =
    | Provisional | ShellIdle | LaunchReserved | ProviderRunning
    | ProviderExited | Relaunching | Destroyed

  datatype Lane = Lane(
    name: Option<string>, project: string, cwd: string, state: LaneState, generation: nat,
    launchProvider: Option<string>, foreground: Option<int>, bound: Option<Key>,
    lastBoundAt: Option<int>, updatedAt: int)

  datatype Operation = New | Resume(target: Key)

  datatype Claim = Reserved | Claimed(claimant: Key)

  datatype Launch = Launch(
    provider: string, name: Option<string>, bodyId: BodyId, project: string, cwd: string,
    sandbox: bool, operation: Operation, expiresAt: int, claim: Claim)

  datatype Tables = Tables(
    records: map<Key, Record>, lanes: map<BodyId, Lane>, launches: map<Token, Launch>)

  datatype Refusal =
    | BadName | BadTtl | ProviderDisagrees | TokenTaken | TargetMissing | NotStopped
    | NameChanged | ResumeInProgress | NameInUse | NameReserved | UnknownCapability
    | CapabilityExpired | BodyDisagrees | ProjectDisagrees | ClaimedElsewhere | WrongResume
    | CollidesWithRecord | LaneCannotBind | LaneMissing | LaneMoved | LaneInUse
    | RecordMissing | RecordDestroyed | AlreadyManaged | BadForeground | StillClaimed

  datatype Outcome = Done | Refused(why: Refusal)

  datatype Step = Step(tables: Tables, outcome: Outcome)

  // ---- names ----

  predicate IsNameStart(c: char) {
    'A' <= c <= 'Z' || 'a' <= c <= 'z' || '0' <= c <= '9'
  }

  predicate IsNameChar(c: char) {
    IsNameStart(c) || c == '_' || c == '.' || c == '-'
  }

  predicate ValidName(name: string) {
    1 <= |name| <= 64 && IsNameStart(name[0]) && forall i :: 0 <= i < |name| ==> IsNameChar(name[i])
  }

  // ---- launches ----

  function Unexpired(launches: map<Token, Launch>, at: int): map<Token, Launch> {
    map token | token in launches && launches[token].expiresAt >= at :: launches[token]
  }

  predicate Unclaimed(launch: Launch, body: BodyId) {
    launch.bodyId == body && launch.claim == Reserved
  }

  function WithoutUnclaimed(launches: map<Token, Launch>, body: BodyId): map<Token, Launch> {
    map token | token in launches && !Unclaimed(launches[token], body) :: launches[token]
  }

  predicate ResumeTargets(launches: map<Token, Launch>, key: Key) {
    exists token | token in launches :: launches[token].operation == Resume(key)
  }

  predicate LaunchNamed(launches: map<Token, Launch>, name: string) {
    exists token | token in launches :: launches[token].name == Some(name)
  }

  /** A live record other than `except` holds `name`. */
  predicate RecordNamed(records: map<Key, Record>, name: string, except: Option<Key>) {
    exists key | key in records :: Holds(records, key, name) && except != Some(key)
  }

  predicate Holds(records: map<Key, Record>, key: Key, name: string) {
    key in records && records[key].state != Tombstoned && records[key].name == Some(name)
  }

  /** `newBody` says that the body identifier was generated for this request. */
  datatype Request = Request(
    token: Token, provider: string, name: Option<string>, bodyId: BodyId, newBody: bool,
    project: string, cwd: string, sandbox: bool, operation: Operation, ttl: int)

  function RequestTarget(r: Request): Option<Key> {
    match r.operation case New => None case Resume(key) => Some(key)
  }

  function InvalidRequest(r: Request): Option<Refusal> {
    if r.name.Some? && !ValidName(r.name.value) then Some(BadName)
    else if r.ttl <= 0 then Some(BadTtl)
    else if r.operation.Resume? && r.operation.target.provider != r.provider then Some(ProviderDisagrees)
    else None
  }

  function ResumeRefusal(records: map<Key, Record>, key: Key, name: Option<string>): Option<Refusal> {
    if key !in records then Some(TargetMissing)
    else if !records[key].managed || records[key].state != Stopped then Some(NotStopped)
    else if records[key].name != name then Some(NameChanged)
    else None
  }

  function NameRefusal(t: Tables, r: Request): Option<Refusal> {
    if r.name.None? then None
    else if RecordNamed(t.records, r.name.value, RequestTarget(r)) then Some(NameInUse)
    else if LaunchNamed(t.launches, r.name.value) then Some(NameReserved)
    else None
  }

  function ReservedLaunch(r: Request, at: int): Launch {
    Launch(r.provider, r.name, r.bodyId, r.project, r.cwd, r.sandbox, r.operation, at + r.ttl, Reserved)
  }

  function Publish(t: Tables, r: Request, at: int): Step {
    match NameRefusal(t, r)
    case Some(why) => Step(t, Refused(why))
    case None => Step(t.(launches := t.launches[r.token := ReservedLaunch(r, at)]), Done)
  }

  /** Reserve one name and one capability; `later` is the clock reading of the resume check. */
  function Reserve(t: Tables, r: Request, at: int, later: int): Step {
    match InvalidRequest(r)
    case Some(why) => Step(t, Refused(why))
    case None =>
      var unexpired := Unexpired(t.launches, at);
      var open := if r.newBody then unexpired else WithoutUnclaimed(unexpired, r.bodyId);
      var t1 := t.(launches := open);
      if r.token in open then Step(t1, Refused(TokenTaken))
      else if r.operation.New? then Publish(t1, r, at)
      else
        match ResumeRefusal(t.records, r.operation.target, r.name)
        case Some(why) => Step(t1, Refused(why))
        case None =>
          var t2 := t.(launches := Unexpired(open, later));
          if ResumeTargets(t2.launches, r.operation.target) then Step(t2, Refused(ResumeInProgress))
          else Publish(t2, r, at)
  }

  function Cancel(t: Tables, token: Token, body: BodyId, bodyStopped: bool): Step {
    if token !in t.launches then Step(t, Refused(UnknownCapability))
    else if t.launches[token].bodyId != body then Step(t, Refused(BodyDisagrees))
    else if t.launches[token].claim != Reserved && !bodyStopped then Step(t, Refused(StillClaimed))
    else Step(t.(launches := t.launches - {token}), Done)
  }

  function Revoke(t: Tables, body: BodyId): Tables {
    t.(launches := WithoutUnclaimed(t.launches, body))
  }

  // ---- lanes ----

  predicate Bindable(state: LaneState) {
    state == LaunchReserved || state == Relaunching || state == ProviderRunning
  }

  function CreateLane(t: Tables, body: BodyId, name: Option<string>, project: string, cwd: string, at: int): Step {
    if name.Some? && !ValidName(name.value) then Step(t, Refused(BadName))
    else if body in t.lanes then Step(t, Refused(LaneInUse))
    else if exists other | other in t.lanes ::
         t.lanes[other].state != Destroyed && name.Some? && t.lanes[other].name == name
    then Step(t, Refused(NameInUse))
    else
      var lane := Lane(name, project, cwd, Provisional, 0, None, None, None, None, at);
      Step(t.(lanes := t.lanes[body := lane]), Done)
  }

  /** What a caller of the compare-and-swap asks for. */
  datatype Change = Change(
    expected: LaneState, expectedGeneration: Option<nat>, target: LaneState, bound: Option<Key>,
    launchProvider: Option<string>, foreground: Option<int>, lastBoundAt: Option<int>, advance: bool)

  function Changed(lane: Lane, c: Change, at: int): Lane {
    lane.(state := c.target, bound := c.bound, launchProvider := c.launchProvider,
          foreground := c.foreground, lastBoundAt := c.lastBoundAt, updatedAt := at,
          generation := lane.generation + if c.advance then 1 else 0)
  }

  function Transition(t: Tables, body: BodyId, c: Change, at: int): Step {
    if body !in t.lanes then Step(t, Refused(LaneMissing))
    else if t.lanes[body].state != c.expected then Step(t, Refused(LaneMoved))
    else if c.expectedGeneration.Some? && t.lanes[body].generation != c.expectedGeneration.value
    then Step(t, Refused(LaneMoved))
    else if c.foreground.Some? && c.foreground.value <= 1 then Step(t, Refused(BadForeground))
    else Step(t.(lanes := t.lanes[body := Changed(t.lanes[body], c, at)]), Done)
  }

  function RecordForeground(t: Tables, body: BodyId, generation: nat, group: int, at: int): Step {
    if group <= 1 then Step(t, Refused(BadForeground))
    else if body !in t.lanes then Step(t, Refused(LaneMissing))
    else if t.lanes[body].generation != generation || !Bindable(t.lanes[body].state)
    then Step(t, Refused(LaneMoved))
    else
      var lane := t.lanes[body].(state := ProviderRunning, foreground := Some(group), updatedAt := at);
      Step(t.(lanes := t.lanes[body := lane]), Done)
  }

  predicate CanFinalize(lanes: map<BodyId, Lane>, body: BodyId, key: Key) {
    body in lanes ==>
      && Bindable(lanes[body].state)
      && lanes[body].launchProvider == Some(key.provider)
      && (lanes[body].bound == None || lanes[body].bound == Some(key))
  }

  function Finalized(lanes: map<BodyId, Lane>, body: BodyId, key: Key, at: int): map<BodyId, Lane> {
    if body !in lanes then lanes
    else lanes[body :=
      lanes[body].(state := ProviderRunning, bound := Some(key), lastBoundAt := Some(at), updatedAt := at)]
  }

  // ---- binding a native identity to a launch ----

  /** What a provider hook presents: its capability and the identity it observed. */
  datatype Hook = Hook(token: Token, key: Key, bodyId: BodyId, project: string)

  /** The hook of a conversation that this body already runs. */
  predicate AlreadyRuns(t: Tables, h: Hook) {
    h.key in t.records &&
    var record := t.records[h.key];
    record.managed && record.state == Running && record.bodyId == Some(h.bodyId) && record.project == Some(h.project)
  }

  function CapabilityRefusal(t: Tables, h: Hook, at: int): Option<Refusal> {
    if h.token !in t.launches then Some(UnknownCapability)
    else
      var launch := t.launches[h.token];
      if launch.expiresAt < at then Some(CapabilityExpired)
      else if launch.provider != h.key.provider then Some(ProviderDisagrees)
      else if launch.bodyId != h.bodyId then Some(BodyDisagrees)
      else if launch.project != h.project then Some(ProjectDisagrees)
      else if launch.claim.Claimed? && launch.claim.claimant != h.key then Some(ClaimedElsewhere)
      else match launch.operation
        case New => if h.key in t.records then Some(CollidesWithRecord) else None
        case Resume(target) =>
          if target != h.key then Some(WrongResume) else ResumeRefusal(t.records, h.key, launch.name)
  }

  function BlankRecord(at: int): Record {
    Record(at, false, Unset, None, None, None, None, false, None, None, None, None)
  }

  function StartedRecord(t: Tables, h: Hook, launch: Launch, at: int): Record {
    var base := if h.key in t.records then t.records[h.key] else BlankRecord(at);
    base.(managed := true, state := Running, project := Some(h.project), resumeCwd := Some(launch.cwd),
          bodyId := Some(h.bodyId), sandbox := launch.sandbox, startedAt := Some(at),
          stoppedAt := None, destroyedAt := None,
          name := if launch.name.Some? then launch.name else base.name)
  }

  /** Publish the identity in the lane, then drop the capability. */
  function FinishBind(t: Tables, h: Hook, at: int, writes: nat, consume: bool): Step {
    if !CanFinalize(t.lanes, h.bodyId, h.key) then Step(t, Refused(LaneCannotBind))
    else if writes == 0 then Step(t, Done)
    else
      var t1 := t.(lanes := Finalized(t.lanes, h.bodyId, h.key, at));
      if writes == 1 || !consume then Step(t1, Done)
      else Step(t1.(launches := t.launches - {h.token}), Done)
  }

  function Rebind(t: Tables, h: Hook, at: int, writes: nat): Step {
    if h.token in t.launches then
      if t.launches[h.token].claim == Claimed(h.key) then FinishBind(t, h, at, writes, true) else Step(t, Done)
    else if h.bodyId in t.lanes && t.lanes[h.bodyId].bound != Some(h.key) then FinishBind(t, h, at, writes, false)
    else Step(t, Done)
  }

  function ClaimFor(t: Tables, h: Hook): Tables
    requires h.token in t.launches
  {
    t.(launches := t.launches[h.token := t.launches[h.token].(claim := Claimed(h.key))])
  }

  function WithRecord(t: Tables, h: Hook, at: int): Tables
    requires h.token in t.launches
  {
    t.(records := t.records[h.key := StartedRecord(t, h, t.launches[h.token], at)])
  }

  /**
   Bind a native identity.  The operation makes up to four durable writes, in this order: claim the
   launch, publish the record, publish the lane, drop the launch.  `writes` is how many of them a
   process that dies on the way has made; four or more is the uninterrupted operation.
   */
  function Bind(t: Tables, h: Hook, at: int, writes: nat): Step {
    if AlreadyRuns(t, h) then Rebind(t, h, at, writes)
    else match CapabilityRefusal(t, h, at)
      case Some(why) =>
        if why.CapabilityExpired? then Step(t.(launches := t.launches - {h.token}), Refused(why))
          else Step(t, Refused(why))
      case None =>
        if writes == 0 then Step(t, Done)
        else if writes == 1 then Step(ClaimFor(t, h), Done)
        else FinishBind(WithRecord(ClaimFor(t, h), h, at), h, at, writes - 2, true)
  }

  // ---- records ----

  /** The first sight of a conversation that nobody launched. */
  function Touch(t: Tables, key: Key, at: int): Tables {
    if key in t.records then t else t.(records := t.records[key := BlankRecord(at)])
  }

  /** What a conversation's own bootstrap notes about where it runs, whoever launched it. */
  function Describe(t: Tables, key: Key, project: string, cwd: string, at: int): Tables {
    var t1 := Touch(t, key, at);
    t1.(records := t1.records[key := t1.records[key].(project := Some(project), resumeCwd := Some(cwd))])
  }

  function MarkStopped(t: Tables, key: Key, body: Option<BodyId>, lost: bool, at: int): Tables {
    if key in t.records && t.records[key].state == Running && t.records[key].bodyId == body then
      var stopped := t.records[key].(state := Stopped, stoppedAt := Some(at));
      t.(records := t.records[key := if lost then stopped.(lostAt := Some(at)) else stopped])
    else t
  }

  function SetName(t: Tables, key: Key, name: Option<string>): Tables
    requires key in t.records
  {
    t.(records := t.records[key := t.records[key].(name := name)])
  }

  /** Drop expired launches, then refuse while a resume of `key` is in progress. */
  function ResumeGuard(t: Tables, key: Key, at: int): Step {
    var t1 := t.(launches := Unexpired(t.launches, at));
    if ResumeTargets(t1.launches, key) then Step(t1, Refused(ResumeInProgress)) else Step(t1, Done)
  }

  function NewNameRefusal(t: Tables, key: Key, name: string): Option<Refusal> {
    if RecordNamed(t.records, name, Some(key)) then Some(NameInUse)
    else if LaunchNamed(t.launches, name) then Some(NameReserved)
    else None
  }

  function Rename(t: Tables, key: Key, name: string, at: int): Step {
    if !ValidName(name) then Step(t, Refused(BadName))
    else if key !in t.records || t.records[key].state == Tombstoned then Step(t, Refused(RecordMissing))
    else
      var guarded := ResumeGuard(t, key, at);
      if guarded.outcome != Done then guarded
      else match NewNameRefusal(guarded.tables, key, name)
        case Some(why) => Step(guarded.tables, Refused(why))
        case None => Step(SetName(guarded.tables, key, Some(name)), Done)
  }

  function AdoptedRecord(record: Record, name: Option<string>, project: string, cwd: string, sandbox: bool): Record {
    record.(managed := true, state := Stopped, project := Some(project), resumeCwd := Some(cwd), sandbox := sandbox,
            name := if name.Some? then name else record.name)
  }

  function Adopt(t: Tables, key: Key, name: Option<string>, project: string, cwd: string, sandbox: bool,
                 at: int): Step {
    if name.Some? && !ValidName(name.value) then Step(t, Refused(BadName))
    else if key !in t.records then Step(t, Refused(RecordMissing))
    else if t.records[key].state == Tombstoned then Step(t, Refused(RecordDestroyed))
    else if t.records[key].managed then Step(t, Refused(AlreadyManaged))
    else
      var guarded := ResumeGuard(t, key, at);
      if guarded.outcome != Done then guarded
      else
        var refusal := if name.None? then None else NewNameRefusal(guarded.tables, key, name.value);
        match refusal
        case Some(why) => Step(guarded.tables, Refused(why))
        case None =>
          var adopted := AdoptedRecord(t.records[key], name, project, cwd, sandbox);
          Step(guarded.tables.(records := t.records[key := adopted]), Done)
  }

  function Destroy(t: Tables, key: Key, at: int): Step {
    if key !in t.records || t.records[key].state == Tombstoned then Step(t, Refused(RecordMissing))
    else if t.records[key].state != Stopped then Step(t, Refused(NotStopped))
    else
      var guarded := ResumeGuard(t, key, at);
      if guarded.outcome != Done then guarded
      else
        var buried := t.records[key].(state := Tombstoned, destroyedAt := Some(at));
        Step(guarded.tables.(records := t.records[key := buried]), Done)
  }

  // ---- taking a name ----

  function OtherLane(lane: Lane, key: Key): bool {
    lane.state != Destroyed && lane.bound != Some(key)
  }

  /** The names that no search for a name of `key` may take. */
  function HeldNames(t: Tables, key: Key): set<string> {
    (set body | body in t.lanes && OtherLane(t.lanes[body], key) && t.lanes[body].name.Some? ::
      t.lanes[body].name.value)
    + (set token | token in t.launches && t.launches[token].name.Some? :: t.launches[token].name.value)
  }

  function Holders(t: Tables, key: Key, name: string): set<Key> {
    set other | other in t.records && other != key && Holds(t.records, other, name)
  }

  function Unnamed(t: Tables, keys: set<Key>): Tables {
    t.(records := map key | key in t.records ::
         if key in keys then t.records[key].(name := None) else t.records[key])
  }

  function RenamedLane(t: Tables, lane: Option<BodyId>, name: string): Tables {
    if lane.Some? && lane.value in t.lanes
    then t.(lanes := t.lanes[lane.value := t.lanes[lane.value].(name := Some(name))])
    else t
  }

  /** Clear every previous holder of `name`, give it to `key`, and rename the lane of `key`. */
  function TakeName(t: Tables, key: Key, name: string, ownLane: Option<BodyId>): Tables
    requires key in t.records
  {
    RenamedLane(SetName(Unnamed(t, Holders(t, key, name)), key, Some(name)), ownLane, name)
  }
}

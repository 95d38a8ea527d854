# Playbook harness: sessions, reconciliation and the chat log

This project models the parts of the Playbook harness that keep durable state and proves what they promise.

* **Managed sessions** (`src/provider/session_state.py`, `src/session_cli.py`, `src/tmux_agent.py`). Conversation
  records, lanes (shells that outlive the agents they run) and launch capabilities are three durable tables.
  `SessionTables` holds the operations as functions, `SessionStore.Store` the same operations as methods that change the
  tables in place, `SessionProgram` any number of them one after the other, `SessionInvariants` what every run of
  operations keeps, `SessionEffects` how operations undo and exclude each other, `SessionRecords` when each operation
  goes through and what it then leaves, field by field, `BindRecovery` the crash recovery of a bind, `NameSearch` the
  search for a free session name. `LaneProtocol` is the distributed protocol around a lane: dispatch, recovery,
  settling, stopping and destroying, each in separate steps, with controllers that act on old readings and may die
  between any two steps, and a terminal that belongs to the user, who may start jobs at any time, put an agent in the
  background, or lose a typed line. Swapping an agent is stopping one and dispatching another; resuming is dispatching
  with a resume capability. `LaneSafety` proves the invariant, `LaneRuns`, `LaneTheorems` and `LaneCapabilities` the
  results over whole runs, `LaneDispatch` what a dispatch brings about, `LaneWithdrawal` what a failed one takes back,
  `LaneProgress` that a dispatch and a recovery come to their ends when nobody interferes; `LaneWitness` and `LaneSwap`
  show complete runs, good and bad.
* **Project reconciliation** (`src/tasks/reconcile.py`). `Planner` plans files from intents, with `ManagedFile`,
  `SharedBlock`, `JsonEntries` and `KeyedLists` for the ways in which a file is owned or shared; `Ownership`,
  `JsonAcceptance` and `KeyedListsAcceptance` say which text they accept as the program's own, and `PlanRefusals` when
  planning refuses to touch a file. `Transaction` is the apply step as functions, `ProjectTree.Project` the same step as
  a program over a mutable tree; `TransactionTheorems` proves all-or-nothing, `TransactionOutcomes` when it succeeds and
  what a failure leaves, said with the plan and the faults, `TransactionStaleness` which plans are stale, `Convergence`
  that a second plan has nothing to do. `JsonCodec` is a printer and a parser of JSON, so that the codec the others take
  as a parameter exists.
* **The chat log** (`src/tasks/chat_state.py`). `ChatLog` is the format, the parser and the append, `ChatOldEntries` the
  numbering of the oldest entries, `ChatParsing` the round trip, `ChatRuns` the runs with lost counter writes,
  `ChatPosting` which notes are posted.
* **Merging branches** (`src/tasks/cli.py`): `MessageNumbers` and `TaskReferences`.
* **Smaller cores**: `Narrative` (binding spans to the log), `Gates` and `GateText` (edits of a task document),
  `Handles` (session handles and their resolver).

## Assumptions

The lane protocol is proved under these assumptions about the world outside the program.

* (a) A provider's hook fires only while its process is alive, in the foreground or not, and it presents the token it
  was launched with.
* (b) A launcher script opens and deletes itself in one step.
* (c) A dispatch old enough to be recovered by another controller has no live controller of its own.
* (d) Generated tokens and body identifiers are new.

Nothing is assumed about the terminal: what is in front may change at any time, and a line typed into it may be lost or
run late.

Store operations run under one lock, so each is one step; a bind may stop after any of its durable writes. In the
transaction no other program writes to the project meanwhile, but for what `TransactionStaleness.StaleMeanwhile` and
`TransactionStaleness.RollbackSparesForeign` say of it. A JSON codec is any pair of printer and parser that reads back
what it prints and reads nothing from an empty text (`JsonValues.Codec.Valid`; there is one, `JsonCodec.CodecExists`). A
run of store operations starts from any consistent store, such as the empty one
(`SessionInvariants.EmptyStoreConsistent`). What is said of reading chat entries back is for time stamps without a
closing bracket, as the program's clock gives them; numbering needs no such assumption.

## What does not hold

Where the code does not do what one would expect of it, the project states when it does.

* A controller that finds the shell in front takes a generation for over, also while its launcher still waits to be
  run or its process lives in the background. After such a look, and only then, a process may bind its lane at a later
  generation (`LaneWitness.StrayBindsNext`); `LaneTheorems.BindsOtherGeneration` says exactly when, and
  `LaneTheorems.BindsOwnGeneration` that it is impossible otherwise.
* After such a look, and only then, a recovery that settles one generation may leave an open capability of another
  (`LaneWitness.SettlingMayLeaveToken`); it never leaves one of the generation it settles
  (`LaneTheorems.SettlingLeavesNoToken`), and it leaves exactly what was reserved while it was under way and not taken
  away since (`LaneCapabilities.OpenWhenSettled`).
* A lane's exit clears an identity that was bound after the exit's controller read the lane
  (`LaneWitness.ExitMayForget`), exactly when a hook bound it since that reading, in that generation
  (`LaneTheorems.ExitForgetsIffBoundSince`).
* A bind that the lane refuses has already published the conversation record, and stays that way
  (`BindRecovery.RefusedBindStaysPublished`).
* A failed transaction leaves behind the directories it made in which a staged file was still waiting
  (`TransactionTheorems.DirectoryLeaks`; said with the plan and the faults in `TransactionOutcomes.FailureLeaves`).
* A plan without conflicts may want one path both as a directory and as a file; the planner compares intents for the
  same path only. Such a plan always fails, and every other one succeeds unless a fault is in its way
  (`Convergence.PlanApplyPlan`, with an input in `Convergence.FileBelowFile`). It may leave a directory even without a
  fault (`TransactionOutcomes.FaultlessLeak`).
* A shared block is merged twice, and then refused, when the user's text ended in a closing marker without a newline
  (`SharedBlock.MergeIsIdempotent`, with an input in `SharedBlock.BareMarkerText`).
* Shared JSON entries converge exactly when no entry contradicts one above it
  (`JsonEntriesProofs.MergeIsIdempotent`, `JsonEntriesProofs.DisagreeingEntries`).
* A chat body is read back as it was posted exactly when it is trimmed and has no line that already begins with a
  backslash and an entry tag (`ChatParsing.KeptBody`); while it is the last of the log, it also loses a line `---` at
  its end (`ChatParsing.LastBody`). Posting any other one again is refused as different content. The shell hook that
  notes a finished gate ends its text with a line break, so its notes are refused when repeated
  (`ChatRuns.LineBreakForgets`).
* The numbering of the oldest entries looks for a time stamp across lines, while the escaping of a body looks at single
  lines. As long as the log has no message, the next append rewrites a body in which `**[` at the start of a line is
  closed by ` UTC]**` on a later one: an event is then taken for a message, its body is changed, and appending it again
  is refused (`ChatRuns.HiddenStampForgets`). Which bodies is said in `ChatOldEntries.NumbersBodyIff`, which entry of a
  run in `ChatRuns.VictimIs`. `ChatRuns.RunIsLog`, `ChatRuns.RunParsesBack` and `ChatRuns.RepeatIsKnown` say for whole
  runs that besides this and the bodies above nothing else can happen.
* Rewriting task references number by number differs from replacing them all at once where a number stands in front
  of "-Task" and the same or a larger number (`TaskReferencesProofs.RewritingTextIsSubstitution`).
* A gate edit that reopens one gate may close another one out of order, unreported (`Gates.ReopeningSkips`), and an
  edit that adds a closed gate may be reported as the closing of a gate that stays open
  (`Gates.InsertedGateMisleads`). When the report of an edit is right is said in `Gates.FaithfulIff`.
* An editor's text that overlaps itself counts as unambiguous (`GateText.OverlapIsNotCounted`), which happens exactly
  for texts that begin as they end (`GateText.AcceptedIsOnlyIff`), and the second attempt of a patch hunk, with a
  newline, can never succeed (`GateText.NewlineIsNoHelp`).
* The name that a session is given may be borne by another live lane: a lane is created under any name that no lane has,
  and a session that comes to its own name keeps it without looking further (`NameSearch.SharedNameIsKept`, for every store like `NameSearch.NamesAreShared`).
  `NameSearch.AnswerIsHeldIff` says exactly when.
* A generated session name is no valid name once the number in it has more than 62 digits
  (`NameSearch.CandidateValid`).

## Model

| member | source | states |
|---|---|---|
| SessionStore.Store.RemoveExpired | src/provider/session_state.py:538-547 | the loop removes exactly the launches that have expired |
| SessionStore.Store.RevokeUnclaimed | src/provider/session_state.py:736-748 | the loop removes exactly the body's unclaimed launches and counts them; claimed ones and other bodies' stay |
| SessionStore.Store.ReserveLaunch | src/provider/session_state.py:550-651 | revokes the body's open capabilities first, refuses a second resume of a conversation and a name that is taken, publishes otherwise; what was revoked stays revoked on a refusal |
| SessionStore.Store.BindLaunch | src/provider/session_state.py:939-1113 | the whole bind, stopped after any number of its writes, leaves the tables of the specification; what those say, field by field, is in `SessionRecords` |
| SessionStore.Store.FinalizeLane | src/provider/session_state.py:452-485 | publishes the identity in the lane exactly when the lane's state, provider and earlier identity allow it |
| SessionStore.Store.MakeLane | src/provider/session_state.py:268-311 | the loop over lanes refuses a name exactly when a live lane has it; a new lane is published under a new body |
| SessionProgram.PerformAll | src/provider/session_state.py:538-1113 | the store performs any number of operations, up to the first that the assumptions about a run exclude: its tables are those of the specification, and consistent all the way |
| SessionEffects.CancelUndoesReserve | src/provider/session_state.py:683-721 | cancelling takes back what a reservation gave; what the reservation dropped on the way, expired, revoked, stays dropped |
| SessionEffects.ClaimedGoesOnly | src/provider/session_state.py:683-748 | of all operations of the store, only the claimant's own bind, a cancel for a stopped body and expiry remove a capability that a conversation has claimed |
| SessionEffects.NoteAndBindCommute | src/provider/session_state.py:751-791 | noting the process group and binding the identity may happen in either order: both are in the lane afterwards, with the same other fields but for the time of writing |
| SessionEffects.RenamedIsOnlyHolder | src/session_cli.py:2065-2102 | after a rename the conversation is the only holder of the name and no capability has it; other records stay, and a refused rename changes none |
| SessionEffects.AdoptedCanBeResumed | src/session_cli.py:1955-2062 | in every state of every run an adopted conversation can be resumed, under its new name or the one it had, exactly unless that is no valid name |
| SessionEffects.DestroyedIsNeverResumed | src/session_cli.py:2263-2303 | in every state of every run that starts without one, no pending resume is for a destroyed conversation |
| SessionRecords.BindRecords | src/provider/session_state.py:1059-1092 | for every bind that gets as far as its record, one field after the other: the conversation is managed, runs in this body and project, in the directory and the sandbox of the launch, under the name of the launch or the one it had, started now; when it was stopped and destroyed is cleared, when it was created and lost is kept, and no other record changes |
| SessionRecords.RecordOfLastBind | src/provider/session_state.py:1072-1092 | over whole runs: the sandbox, the body and the time of start on record are those of the launch that the conversation last bound, and so is the directory until the conversation reports another one |
| SessionRecords.OtherBindsRecordNothing | src/provider/session_state.py:977-1057 | no other bind changes a record |
| SessionRecords.BindFinishes | src/provider/session_state.py:1092-1113 | a full bind leaves its identity in the lane, which runs, and no capability; all other lanes and capabilities stay |
| SessionRecords.BindIsRefusedByLane | src/provider/session_state.py:452-485 | a lane that is in no bindable state, for another provider or bound to another conversation refuses the bind and stays as it is, and the capability stays claimed |
| SessionRecords.BindIsRefused | src/provider/session_state.py:1005-1057 | a hook that is neither known nor admitted by a good capability changes nothing, but that an expired capability goes |
| SessionRecords.BindsAgain | src/provider/session_state.py:981-1019 | the hook of a conversation that its body runs already: when it still publishes its identity, and that it otherwise does nothing |
| SessionRecords.Reserves | src/provider/session_state.py:550-651 | a capability is granted exactly for a valid request with a new token, for a managed conversation that stopped under the name asked for and that no pending resume is for, under a name that nobody else has; the capability says what was asked for, and exactly the expired ones and the open ones of its body are dropped |
| SessionRecords.Cancels | src/provider/session_state.py:683-721 | a capability is cancelled exactly for its own body, and when it is claimed only once that body has stopped |
| SessionRecords.Creates | src/provider/session_state.py:268-311 | a lane is made exactly under a new body and a valid name that no live lane has, provisional, at generation 0, for no provider |
| SessionRecords.Swaps | src/provider/session_state.py:387-449 | the compare-and-swap goes through exactly for the state and generation that were expected, writes what was asked for and changes no other lane |
| SessionRecords.Notes | src/provider/session_state.py:751-791 | a process group is noted exactly for the generation that starts or runs, and an identity bound meanwhile stays |
| SessionRecords.Destroys | src/session_cli.py:2263-2303 | a stopped conversation without a pending resume, and only such a one, becomes a tombstone with the time; all its other fields stay |
| SessionRecords.Renames | src/session_cli.py:2065-2102 | a live conversation gets a valid name that no other live one and no good capability has, unless a resume of it is pending; otherwise no record changes |
| SessionRecords.Adopts | src/session_cli.py:1955-2062 | an unmanaged live conversation becomes a stopped managed one with what is needed to resume it, under the same conditions; otherwise no record changes |
| SessionInvariants.ReserveKeeps | src/provider/session_state.py:592-650 | reserving keeps one holder per name, one open capability per body, one resume per conversation |
| SessionInvariants.BindKeeps | src/provider/session_state.py:977-1113 | a bind that stops after any write keeps them too |
| SessionInvariants.PublishRecordKeeps | src/provider/session_state.py:1059-1092 | publishing a record under a reserved name gives the name no second holder |
| SessionInvariants.AdoptKeeps | src/session_cli.py:2023-2033 | so does adopting a conversation |
| SessionInvariants.RenameKeeps | src/session_cli.py:2068-2090 | so does renaming |
| SessionInvariants.TakeNameKeeps | src/session_cli.py:2166-2187 | so does taking a name after its stopped holders gave it up |
| SessionInvariants.StepKeeps | src/provider/session_state.py:538-748 | every operation keeps the name space and the launch table consistent |
| SessionInvariants.EveryStateConsistent | src/provider/session_state.py:538-1113 | in every state of every run: no two live records share a name, no two launches do, a launch's name is held only by its target or claimant, one open capability per body, one resume per conversation |
| SessionInvariants.ClaimantStays | src/provider/session_state.py:977-1005 | a claimed launch never gets another claimant |
| SessionInvariants.TombstonesStay | src/provider/session_state.py:1059-1074 | no operation revives a destroyed record |
| SessionInvariants.TombstonesForever | src/session_cli.py:2263-2303 | over a whole run a destroyed record stays destroyed |
| BindRecovery.BindSurvivesCrash | src/provider/session_state.py:977-1113 | stopping a bind after any of its writes and running it again gives the outcome and tables of the uninterrupted bind, up to clock readings, with the token gone |
| BindRecovery.BindIsRebind | src/provider/session_state.py:977-1092 | a bind that gets past its first two writes goes on as a repeated bind does |
| BindRecovery.FinishAgain | src/provider/session_state.py:1092-1113 | the second half run twice is the second half run once |
| BindRecovery.RefusedBindStaysPublished | src/provider/session_state.py:1059-1113 | a bind succeeds exactly when the lane accepts it; otherwise the published record stays, and repeating changes nothing |
| NameSearch.CandidatesDistinct | src/session_cli.py:2159-2163 | from the second attempt on the candidate names are pairwise distinct, also where they are cut to 64 characters |
| NameSearch.CandidateValid | src/session_cli.py:2159-2163 | the candidate of an attempt is a valid name exactly when the attempt's number has at most 62 digits |
| NameSearch.AttemptsBounded | src/session_cli.py:2158-2173 | the search ends within the number of held names and other named records plus three |
| NameSearch.SurveyLanes | src/session_cli.py:2134-2146 | the loop finds exactly the names of other live lanes, and the conversation's own lane |
| NameSearch.AddLaunchNames | src/session_cli.py:2147-2152 | and the names of pending launches |
| NameSearch.ClearHolders | src/session_cli.py:2174-2182 | every former holder loses the name and nothing else changes |
| NameSearch.ClaimSessionName | src/session_cli.py:2105-2203 | the answer is the own name where it is to be kept, and otherwise the first candidate that is the own name or is free, within the bound on attempts and, under it, a valid name; a new name is taken after every stopped holder gave it up, and nothing else changes |
| NameSearch.TakenByOne | src/session_cli.py:2174-2193 | afterwards the conversation is the only holder of its name |
| NameSearch.SkippedIff | src/session_cli.py:2158-2173 | a candidate is passed over exactly when another live lane or any pending launch has it, when it is the word for all sessions, or when live conversations have it that run |
| NameSearch.OnlyOwnLaneIsRenamed | src/session_cli.py:2184-2198 | with a new name the conversation's own live lane is called by it, and no other lane is |
| NameSearch.AnswerIsHeldIff | src/session_cli.py:2159-2173 | the name answered is borne by another live lane, or by a launch for something else, exactly when the conversation's own name was before the call and is kept: because any name is, or because the search comes to it |
| NameSearch.OnlyLanesShare | src/session_cli.py:2134-2152 | in a consistent store such a name is shared with a lane, never with a launch alone |
| NameSearch.SharedNameIsKept | src/provider/session_state.py:268-311 | a lane can be created under the name of a live conversation, and the conversation then keeps that name, whoever runs |
| LaneSafety.StepKeeps | src/session_cli.py:423-652 | every step of every controller, process, hook and terminal keeps the invariant of the lane |
| LaneSafety.BindEffect | src/provider/session_state.py:452-485 | what a bind can change about a lane: an identity, for a lane in a bindable state |
| LaneSafety.ConcludeKeeps | src/session_cli.py:609-652 | when recovery settles a generation, no capability reserved for it is open, and none of the body unless a look was misleading |
| LaneSafety.AdmitKeeps | src/session_cli.py:436-455 | admission keeps the invariant: unless a look was misleading, nothing is typed or running for the new generation; what an admission writes is in `LaneDispatch.AdmitWrites` |
| LaneSafety.HookKeeps | src/provider/session_state.py:977-1113 | a hook of any live process, in the foreground or not and of whatever generation, keeps the lane's history |
| LaneSafety.TerminalKeeps | src/tmux_agent.py:502-540 | a lost line, the end of a process and any change of what is in front keep the invariant |
| LaneSafety.StoppingKeeps | src/tmux_agent.py:557-607 | stopping ends the job whose process group was noted, and what is then known of its generation is kept |
| LaneRuns.EveryWorld | src/session_cli.py:423-652 | the invariants hold in every state of every run, over any number of lanes, agents in the background and jobs of the user |
| LaneTheorems.BindsOwnGeneration | src/provider/session_state.py:452-485 | unless a controller misjudged the terminal before, a process started for one generation never writes its lane at another, and no hook writes another lane |
| LaneTheorems.LivesInItsGeneration | src/session_cli.py:423-652 | until then every live process belongs to the generation of its lane |
| LaneTheorems.BindsOtherGeneration | src/provider/session_state.py:977-1113 | exactly when a process binds its lane at another generation: the lane is unbound, bindable and for the same provider, and the conversation is on record as running there or its capability admits it; and then a controller misjudged the terminal before |
| LaneTheorems.SettlingLeavesNoToken | src/session_cli.py:609-652 | once recovery settles a generation as not run or ended, no capability ever reserved for it is open, and none of that body unless a look was misleading |
| LaneCapabilities.OpenAfterIff | src/provider/session_state.py:538-748 | for every operation of the store: a capability is open afterwards exactly when it was open and the operation does not claim, cancel, revoke or drop it as expired, or when the operation grants it |
| LaneCapabilities.OpenWhenSettled | src/session_cli.py:609-652 | when recovery settles a generation it has revoked before, and exactly those capabilities are open that a dispatch of another generation reserved since then and no step took away |
| LaneRuns.LaneHistory | src/provider/session_state.py:387-449 | along every run a generation never decreases, destroyed is absorbing, and within a generation a published identity stays until the agent has left |
| LaneRuns.GenerationGrowsAtLaunch | src/session_cli.py:449-456 | it grows by exactly one, and only on leaving an idle or exited lane for a launch |
| LaneRuns.OneIdentityPerGeneration | src/provider/session_state.py:452-485 | within one generation two different conversations are never both bound, even with stale controllers |
| LaneTheorems.OneAdmission | src/session_cli.py:436-455 | however many controllers act on one reading, along every run each generation is given to one admitted dispatch |
| LaneDispatch.AdmitWrites | src/session_cli.py:449-456 | an admission that goes through starts the next generation for the provider that was asked for, in the state for a first or a later launch, with no identity, process group or time of the generation before |
| LaneDispatch.AdmitGoesThrough | src/session_cli.py:449-456 | it goes through exactly when the lane is in the state that was read, in whatever generation |
| LaneDispatch.AdmittedProvider | src/session_cli.py:449-456 | over whole runs: as long as the generation can be bound, its lane is for the provider that its admission was asked for |
| LaneDispatch.LaunchedBinds | src/provider/session_state.py:977-1113 | over whole runs: a process that was launched with the capability of its generation, good and not taken away, for a conversation of the provider that was asked for at the admission, is accepted and binds its lane |
| LaneDispatch.ConclusionWrites | src/session_cli.py:1346-1359 | what ends a generation leaves the lane in its state with nobody in front; an exit keeps the identity, provider and time that its controller read, everything else clears them |
| LaneDispatch.ConclusionGoesThrough | src/session_cli.py:609-652 | and when it goes through: for the state that was read, and where it matters for the generation that was read |
| LaneDispatch.LaunchIsFollowedUp | src/session_cli.py:546-589 | a controller that typed a launcher is done only when the agent is noted in the lane, a job is in front that may be it, the lane has moved on, the generation is concluded, or it died |
| LaneDispatch.StoppingEndsGroup | src/tmux_agent.py:557-607 | stopping ends exactly the processes of the group that is noted in the lane and is in front |
| LaneWithdrawal.GivingUpLeavesNoToken | src/session_cli.py:546-589 | over whole runs, whatever the other controllers do: a dispatch that fails before its launcher is typed leaves open no capability that was ever reserved for its generation |
| LaneSwap.SwapsProvider | src/session_cli.py:1638-1700 | a run that hands a lane over: an agent of one provider leaves, another provider is admitted and launched, and its conversation binds the lane |
| LaneProgress.CanGoOn | src/session_cli.py:423-652 | a controller can go on in every phase, unless its lane is destroyed, another dispatch is under way, or a job that is not its own is in front |
| LaneProgress.DispatchLaunches | src/session_cli.py:423-589 | a dispatch that nobody interferes with, into an idle lane with the shell in front, for a request that may be granted, ends with its agent running and noted: the next generation, for the provider asked for, with a good capability |
| LaneProgress.RecoverySettles | src/session_cli.py:609-652 | a recovery that nobody interferes with, with the shell in front, settles its generation in at most five steps: as not run when the launcher file is still there, as ended otherwise, with no capability open |
| LaneTheorems.OneConclusion | src/provider/session_state.py:387-449 | and concluded by one controller, given up, not run, ended or left; only a destruction can follow in the same generation |
| LaneTheorems.ExitForgetsIffBoundSince | src/session_cli.py:1346-1359 | an exit that goes through clears the identity exactly when a hook bound the lane in that generation after the exit's controller last read it; no exit brings an identity back or replaces one |
| LaneRuns.EventPerformsOne | src/session_cli.py:423-652 | every step of the protocol performs at most one store operation |
| LaneRuns.OtherBodies | src/provider/session_state.py:736-748 | a step of one lane touches no other lane and opens no capability for it |
| LaneWitness.StartsAgent | src/session_cli.py:423-589 | the protocol can run: a lane is opened, an agent dispatched and noted |
| LaneWitness.ExitMayForget | src/session_cli.py:1346-1359 | a run in which a bound identity is cleared by an exit that read the lane before |
| LaneWitness.StrayBindsNext | src/provider/session_state.py:977-1113 | a run in which a process started for generation 1 binds its lane at generation 2 |
| LaneWitness.SettlingMayLeaveToken | src/session_cli.py:609-652 | a run in which recovery settles generation 3 while a capability of generation 2 is open |
| ProjectTree.RequiredModes | src/tasks/reconcile.py:1264-1279 | the loops collect exactly the needed directories, with the mode an operation asks for or the default |
| ProjectTree.RequiredDirectories | src/tasks/reconcile.py:1264-1280 | each needed directory once, parents before children |
| ProjectTree.Project.ApplyPlan | src/tasks/reconcile.py:1048-1089 | the tree left and the failure reported are those of the specified transaction |
| ProjectTree.Project.ApplyGroup | src/tasks/reconcile.py:1164-1261 | so are those of its passes, for every fault |
| ProjectTree.Project.StageFiles | src/tasks/reconcile.py:1196-1213 | stages are written beside their targets, and what was there is remembered, until the first failure |
| ProjectTree.Project.ReplaceFiles | src/tasks/reconcile.py:1215-1233 | targets are replaced one by one until the first failure |
| ProjectTree.Project.Rollback | src/tasks/reconcile.py:1234-1256 | commits are undone from the last to the first, then empty new directories are removed |
| Transaction.FirstStale | src/tasks/reconcile.py:1092-1121 | nothing is changed unless every operation's premise still holds; which premises is said in `TransactionStaleness.StaleIsRefused` |
| TransactionStaleness.StaleIsRefused | src/tasks/reconcile.py:1092-1121 | a plan with an operation that finds its place taken, its file missing or with another content, for a deletion with another mode, or its directory gone leaves the very same tree and reports the first such operation |
| TransactionStaleness.AppliesIff | src/tasks/reconcile.py:1048-1089 | a plan is carried out exactly when no operation is stale in this sense, no path is wanted both as a directory and as a file and no fault is in the way |
| TransactionStaleness.StaleMeanwhile | src/tasks/reconcile.py:1124-1141 | an operation that becomes stale after that check is neither staged nor carried out |
| TransactionStaleness.RollbackSparesForeign | src/tasks/reconcile.py:1144-1156 | a rollback leaves alone what somebody else has put in the place of a file it had changed |
| TransactionStaleness.ModeIs | src/tasks/reconcile.py:1264-1280 | a directory that is made has the mode asked for, and rwxr-xr-x if none is |
| TransactionProofs.PlannedAt | src/tasks/reconcile.py:1215-1233 | what a plan leaves at each path: the operation's content and mode, nothing for a deletion, the old file otherwise |
| TransactionProofs.UndoRestores | src/tasks/reconcile.py:1234-1250 | undoing all commits gives back exactly the old files |
| TransactionDirectories.RemovesAllButWaiting | src/tasks/reconcile.py:1251-1255 | removal from the back leaves exactly the made directories at or above a waiting stage |
| TransactionTheorems.SuccessIsThePlan | src/tasks/reconcile.py:1164-1233 | a success leaves exactly the planned contents and modes, all other files as they were, and no stage |
| TransactionTheorems.SuccessMakesDirectories | src/tasks/reconcile.py:1184-1194 | and every planned directory with its mode, no unneeded ones, the old ones unchanged |
| TransactionTheorems.FailureRestores | src/tasks/reconcile.py:1164-1261 | for every plan and fault point, with no failing restore, a failure gives back every file with content and mode and leaves no stage; which directories remain is said exactly |
| TransactionOutcomes.SucceedsIff | src/tasks/reconcile.py:1164-1233 | a plan whose premises hold succeeds exactly when it wants no path both as a directory and as a file and no fault is in the way of one of its operations |
| TransactionOutcomes.FailureLeaves | src/tasks/reconcile.py:1164-1261 | for every plan and failure, with or without a fault, the directories left, said with the plan, the tree and the faults: those needed and absent before, at or above the target of a written file that was staged and not yet put in place |
| TransactionOutcomes.FailureLeavesNothing | src/tasks/reconcile.py:1234-1261 | the whole tree is given back exactly when every such file was meant for a directory that was there |
| TransactionOutcomes.FaultlessLeak | src/tasks/reconcile.py:1184-1213 | a plan that wants one path as file and as directory fails without any fault and leaves a directory |
| TransactionTheorems.NothingInBetween | src/tasks/reconcile.py:1234-1261 | even when restoring fails, each file is its old or its planned self and no stage is left |
| TransactionTheorems.ApplyWellFormed | src/tasks/reconcile.py:1048-1089 | files stay in directories and no path is both, after success and failure |
| TransactionTheorems.DirectoryLeaks | src/tasks/reconcile.py:1251-1261 | a concrete failed transaction that leaves a directory, since stages go last |
| ManagedFile.ParseUndoesRender | src/tasks/reconcile.py:389-489 | in all five marker styles, front matter included, parsing a rendered file gives back its metadata and a body with the same digest, the very same text outside JSON |
| ManagedFile.ClosingStays | src/tasks/reconcile.py:412-417 | the marker inserted after a front matter does not move the front matter's end |
| ManagedFile.RenderedIsAuthentic | src/tasks/reconcile.py:540-552 | a rendered file is accepted as owned and unmodified |
| ManagedFile.OtherBodyIsNoticed | src/tasks/reconcile.py:549-552 | with injective digests, another body under the same marker is not accepted |
| Ownership.AuthenticIff | src/tasks/reconcile.py:427-489 | a file is taken for the program's own exactly when it carries, in the place and form of its style, a marker that names program, schema and source and has the digest of the rest of the file |
| Ownership.UnmarkedIff | src/tasks/reconcile.py:427-489 | and for unmarked exactly when it is empty or has no marker in that place |
| SharedBlock.Occurrences | src/tasks/reconcile.py:722-731 | the markers of a merged text are the block's own two and those of the user's text around it |
| SharedBlock.Replaces | src/tasks/reconcile.py:730-750 | a block of the same source, whatever version, is replaced where it stands |
| SharedBlock.MergeKeepsUserText | src/tasks/reconcile.py:722-750 | all text before and after the block is kept to the letter |
| Ownership.MergesIff | src/tasks/reconcile.py:722-750 | a block is put into a text exactly when no marker is in it, or one block that the program wrote for this source and nobody has edited |
| SharedBlock.MergeIsIdempotent | src/tasks/reconcile.py:722-750 | merging again changes nothing exactly when the text did not end in a closing marker without newline |
| JsonEntries.MergeJsonEntries | src/tasks/reconcile.py:753-795 | the entry loops compute the specified document, flag and error |
| JsonEntriesProofs.MergeOneSets | src/tasks/reconcile.py:771-794 | the value is at its path afterwards, the flag says whether the document changed, and what was overwritten was absent or the program's own earlier value |
| JsonAcceptance.MergeOneIff | src/tasks/reconcile.py:771-794 | a value is set exactly when only objects, nulls and gaps lie on the way to its place, and the place is free, has the value, or has one of the program's own earlier values |
| JsonAcceptance.MergeIff | src/tasks/reconcile.py:753-795 | entries at places that lie apart are merged exactly when their paths are proper, two for one place ask for one value, and each place takes it, where the earlier values are those that any of the entries for the place names |
| JsonEntriesProofs.Collected | src/tasks/reconcile.py:755-769 | collecting gives every wanted value once, in the order of paths |
| JsonEntriesProofs.MergeIsIdempotent | src/tasks/reconcile.py:753-795 | merging again changes nothing exactly when no entry contradicts one above it |
| JsonEntriesProofs.MergeSetsEntries | src/tasks/reconcile.py:753-795 | then every entry is at its place and the flag is exact |
| JsonEntriesProofs.MergeKeepsTheRest | src/tasks/reconcile.py:771-794 | values neither above nor below an entry are kept |
| JsonEntriesProofs.DisagreeingEntries | src/tasks/reconcile.py:771-794 | two entries accepted once and not a second time |
| KeyedLists.MergeKeyedListEntries | src/tasks/reconcile.py:798-1025 | the grouping and merging loops compute the specified document, flag and error |
| KeyedListsProofs.UpdateKeeps | src/tasks/reconcile.py:880-1025 | elements that match neither key are kept, all of them, unchanged and in order, also when duplicates are removed |
| KeyedListsProofs.OuterUpdated | src/tasks/reconcile.py:966-1000 | in an outer element that one nested entry updates, all other fields and all other children stay, in order |
| KeyedListsProofs.UpdateSettles | src/tasks/reconcile.py:880-1025 | one update settles an entry, flat or nested, appended, adopted or deduplicated |
| KeyedListsProofs.StaysSettled | src/tasks/reconcile.py:844-1025 | a settled entry stays settled while others are merged, at any paths, that accept other keys or own other children of the outer elements they share |
| KeyedListsProofs.MergeIsIdempotent | src/tasks/reconcile.py:798-1025 | for entries that accept different keys or own different children, merging again changes nothing, and the flag tells whether the first merge did |
| KeyedListsProofs.GroupedIff | src/tasks/reconcile.py:802-842 | entries are merged at all exactly when each is valid and those of one identity ask for the same value, so that two entries for different children under one outer key, found by the same fields, are refused; and each is represented then |
| KeyedListsAcceptance.GroupNames | src/tasks/reconcile.py:833-842 | there is one entry for each identity, and it adopts what any of the entries contributed for it adopts |
| KeyedListsAcceptance.MergeAtIff | src/tasks/reconcile.py:844-1025 | an entry is merged exactly when objects lead to a list or to nothing, and: flat, all that its key or an adopted key finds is the entry itself or one and the same earlier value of the program's own; nested, it has one child, all that it finds has a list of objects, and at most one element may take the child |
| KeyedListsProofs.MergeKeeps | src/tasks/reconcile.py:798-1025 | in every list of the document, what no entry for that list matches is kept, all of it, unchanged and in order |
| KeyedListsProofs.MergeCarries | src/tasks/reconcile.py:798-1025 | over all entries together: every element of a list has its place in the new list, in the old order, with all fields that no entry writes and all children that no entry owns, in order; the only ones without a place are values of the program's own |
| KeyedListsProofs.MergeKeepsTheRest | src/tasks/reconcile.py:798-1025 | values of the document neither on the way to a list of an entry nor in one are kept |
| Planner.PlanReconciliation | src/tasks/reconcile.py:288-329 | the loops over paths give the specified operations and conflicts; which these are is said in `PlanRefusals` |
| PlanRefusals.PlannedIff | src/tasks/reconcile.py:526-697 | a path gets an operation exactly when all intents for it are the same and what is there allows it: for a managed file one that is missing, unmarked with an adopted digest, or the program's own and unmodified; for an exact one the expected digest, and mode for a deletion; a block or a merge that is accepted; no file in place of a directory and the other way round. Otherwise it is a conflict and nothing is planned for it |
| PlanRefusals.OperationIs | src/tasks/reconcile.py:526-697 | and the operation is the one intended, with content, mode and the text it was planned from |
| PlanRefusals.OverwrittenIs | src/tasks/reconcile.py:526-697 | a file that a plan writes over or removes is always the program's own or adopted, or expected to the letter, or merged into |
| PlanRefusals.PlansIff | src/tasks/reconcile.py:297-322 | planning as a whole fails exactly for a path that is not below the root and for a managed source that no marker can be put on |
| Convergence.ManagedConverges | src/tasks/reconcile.py:526-565 | a managed file that was written plans to stay as it is |
| Convergence.BlockConverges | src/tasks/reconcile.py:617-638 | a shared block does exactly when the user's text did not end in a bare marker |
| Convergence.JsonConverges | src/tasks/reconcile.py:640-669 | shared JSON values do exactly when no entry contradicts one above it |
| Convergence.KeyedListConverges | src/tasks/reconcile.py:671-697 | keyed list entries do when they accept different keys or own different children |
| Convergence.OperationLeaves | src/tasks/reconcile.py:1164-1233 | an applied operation leaves its target at its path |
| Convergence.AppliedPlanConverges | src/tasks/reconcile.py:288-329 | planning again after a successful transaction gives no conflict and only unchanged operations, for all repeatable intents together |
| Convergence.PlanIsReady | src/tasks/reconcile.py:288-329 | a plan without conflicts meets every condition of the transaction on the tree it was made for, premises included |
| Convergence.PlanApplyPlan | src/tasks/reconcile.py:288-329 | a plan without conflicts is carried out exactly when it wants no path both as a directory and as a file and no fault is in the way; and then planning again leaves nothing to do, for intents that converge one by one: no bare marker, no entry that contradicts one above it, separate lists |
| Convergence.FileBelowFile | src/tasks/reconcile.py:295-322 | in an empty project a file and another one below it are planned without conflict, applying fails whatever the faults, and the project is as before |
| ChatHeaderProofs.HeaderRoundTrip | src/tasks/chat_state.py:30-36 | a written header line is read back |
| ChatHeaderProofs.MetadataRoundTrip | src/tasks/chat_state.py:129-151 | provider, session, name and event key are read back; no name is not the name "-" |
| ChatText.StripsBetween | src/tasks/chat_state.py:163-166 | trimming finds a trimmed body between blank lines |
| ChatSections.SectionsAppend | src/tasks/chat_state.py:154-163 | a block at the end of any text adds one section and leaves the earlier ones, but for the separator |
| ChatLog.ParseChatEntries | src/tasks/chat_state.py:154-181 | the loop over headers gives the entries of the specification |
| ChatLog.SearchEvent | src/tasks/chat_state.py:292-299 | the loop finds the first entry of the same scope, session and event; what that is, is said in `ChatPosting.PostedIff` |
| ChatLog.Log.AppendEntry | src/tasks/chat_state.py:256-328 | the append, also when it dies between log and counter, leaves the specified files; old entries are numbered first, also those whose time stamp runs over several lines; which notes are posted is said in `ChatPosting` |
| ChatPosting.PostedIff | src/tasks/chat_state.py:292-311 | an acceptable note is posted exactly when no entry of the numbered log has its kind of marker, its provider, its session and its event key; otherwise nothing changes, and the first such entry decides by body and name whether it is known |
| ChatPosting.PostedIs | src/tasks/chat_state.py:312-328 | a posted note goes behind the numbered log, a message under the next number, and the counter is that number if it is still written |
| ChatPosting.InvalidIff | src/tasks/chat_state.py:238-254 | a note is refused exactly for its marker, time stamp, empty text, name, event key, session or provider |
| ChatPosting.NewIsPosted | src/tasks/chat_state.py:292-311 | over whole runs: a note is posted exactly when it differs from every posted note in its marker, its provider, its session or its event key |
| ChatParsing.EncodedIsInert | src/tasks/chat_state.py:46-48 | no escaped body line is a header, a message marker, or by itself an old entry to be numbered |
| ChatParsing.DecodeUndoesEncode | src/tasks/chat_state.py:46-57 | escaping is undone exactly for lines that did not look escaped already |
| ChatParsing.RuleIsUndone | src/tasks/chat_state.py:164-168 | the rule that an append puts behind an entry is taken away again, and nothing else |
| ChatParsing.LastBody | src/tasks/chat_state.py:164-168 | while it is the last, a body is read back exactly when it is trimmed, has no line that looks escaped and does not end in a bare rule |
| ChatParsing.KeptBody | src/tasks/chat_state.py:164-168 | and with an entry behind it exactly when it is trimmed and has no line that looks escaped |
| ChatParsing.ParseAfterAppend | src/tasks/chat_state.py:315-323 | appending to any text keeps the earlier entries and adds the new one at the end |
| ChatParsing.ParseUndoesAppend | src/tasks/chat_state.py:154-181 | a log of appended entries parses to exactly these, with all fields and in order, exactly when every body is one that is read back and the last does not end in a bare rule |
| ChatOldEntries.NumberOldNumbers | src/tasks/chat_state.py:91-108 | numbering the oldest entries, over one line or several, gives the numbers up to the one it reports, and changes no other line |
| ChatOldEntries.NumbersBodyIff | src/tasks/chat_state.py:102-107 | an escaped body is rewritten by that numbering exactly when some line starts with `**[` and the first `]` behind it, on a later line, ends ` UTC]**` |
| ChatRuns.FreshNumber | src/tasks/chat_state.py:279-291 | for any body and time stamp: a new message's number exceeds every number in the log, and the next one will exceed it whether or not the counter was written |
| ChatRuns.AppendAgain | src/tasks/chat_state.py:292-311 | appending a note again changes nothing and gives the first marker; it is refused as different exactly when its body is not trimmed or has a line that looks escaped, ends in a bare rule, or hides an old stamp while the log has no message |
| ChatRuns.RunIsLog | src/tasks/chat_state.py:256-328 | in every run from an empty project the log is made of the posted entries exactly when none of them was taken for an old one: hides an old stamp, had no message up to it and was followed by an append |
| ChatRuns.RunParsesBack | src/tasks/chat_state.py:154-181 | and parses back to them exactly when, further, every body is one that is read back and the last ends in no bare rule |
| ChatRuns.NumbersGrow | src/tasks/chat_state.py:279-328 | for any bodies and time stamps: message numbers grow strictly along every run, wherever it died between the two files |
| ChatRuns.RepeatIsKnown | src/tasks/chat_state.py:292-311 | any posted note of a run can be appended again at any later time without effect; it is refused exactly when its body is not one that is read back, while it ends in a bare rule and is the last one, or when it is the one whose body is taken for an old entry |
| ChatRuns.VictimIs | src/tasks/chat_state.py:91-108 | that entry is the first one whose body hides an old stamp, if no message was posted up to it |
| ChatRuns.HiddenStampForgets | src/tasks/chat_state.py:102-107 | the first event of a project, with such a body over two lines, appended twice is refused as different content |
| ChatRuns.LineBreakForgets | scripts/state-echo-hook:223-227 | a finished gate's note, which ends with a line break, is posted, and refused as different content when posted again |
| MessageNumbers.MidsAreNumbers | src/tasks/cli.py:1065-1067 | the tokens of a text carry the numbers that the log's scan finds |
| MessageNumbers.ReadsBackShifted | src/tasks/cli.py:1099-1106 | the rewritten text has the same characters around the same markers |
| MessageNumbers.NotAdvancedIsUnreachable | src/tasks/cli.py:1094-1097 | the return for a target that has not advanced is never reached |
| MessageNumbers.PreparesIff | src/tasks/cli.py:1082-1097 | numbers are moved exactly when a message new since the merge base has a number that is not beyond the target's last |
| MessageNumbers.Resequences | src/tasks/cli.py:1094-1107 | numbers above the base end above the target's last, by one distance, distinct and in order; the others stay |
| MessageNumbers.CounterIsLast | src/tasks/cli.py:1107-1120 | the counter written is the last number of the new log |
| MessageNumbers.PreparedIsClean | src/tasks/cli.py:1089-1092 | a second run with the same base and target does nothing |
| MessageNumbers.MergeFiles.PrepareMerge | src/tasks/cli.py:1116-1143 | log and counter are both written or both as before, wherever publishing fails |
| TaskReferences.AssignNumbers | src/tasks/cli.py:811-818 | the clashing numbers get the numbers after the target's last, one after the other, so none is a number of the target and none is an old one |
| TaskReferences.RewriteTaskReferences | src/tasks/cli.py:837-850 | the loop rewrites number by number |
| TaskReferencesProofs.WordsOfText | src/tasks/cli.py:843-849 | a rewritten division into words is the division of the rewritten text |
| TaskReferencesProofs.RewritesEach | src/tasks/cli.py:837-850 | what the rewriting does to each word, said for the original text |
| TaskReferencesProofs.RewritingTextIsSubstitution | src/tasks/cli.py:837-850 | for every text it is the simultaneous substitution exactly when no number in it precedes a dash and a capitalised "Task" with the same or a larger number |
| TaskReferencesProofs.CapitalTask | src/tasks/cli.py:844-848 | "5-Task 7" is such a place |
| Narrative.LocateEntry | src/tasks/narrative.py:188-204 | the loop finds the first match |
| Narrative.Bind | src/tasks/narrative.py:306-348 | every span gets the entries of its slice, the warnings are the gaps, the first span that cannot be anchored is reported |
| Narrative.SpansAreAnchored | src/tasks/narrative.py:306-334 | every span starts at the first match behind the one before and ends at the first match from its start |
| Narrative.UnplacedIs | src/tasks/narrative.py:306-334 | a span is refused only when there is no entry for its start behind the span before, or none for its end from its first one on |
| Narrative.SpansAreForward | src/tasks/narrative.py:306-334 | spans are non-empty, disjoint and increasing |
| Narrative.WarningsAreGaps | src/tasks/narrative.py:336-348 | the warnings name exactly the entries between two neighbouring spans |
| Narrative.AnnotatedEnd | src/tasks/narrative.py:372-381 | the loop gives the specified end |
| Narrative.LenientStep | src/tasks/narrative.py:372-381 | a span without a start behind the annotated entries is passed over; one without an end counts as its first entry |
| Narrative.CoveredBounds | src/tasks/narrative.py:351-363 | its second bound is that end, for all annotations, bindable or not |
| Narrative.ReadersAgree | src/tasks/narrative.py:351-381 | when binding succeeds both readers find the ends of the bound spans |
| Narrative.AppendingKeepsSpans | src/tasks/narrative.py:306-334 | appending entries to the log changes no span and no warning |
| Gates.RunKeepsAuthority | src/tasks/gate_edit.py:135-166 | over any run of accepted edits status and sessions stay, and each edit closes at most one gate more |
| Gates.AcceptedIff | src/tasks/gate_edit.py:135-185 | every edit: it is accepted exactly when status, sessions and monitor mark stay, and outside monitor boards at most one gate more is closed, where the first open one stood, and an edit with less gates that closes none more leaves that one in place |
| Gates.MonitorReport | src/tasks/gate_edit.py:188-202 | of a monitor board the one gate is reported that an edit closes, and none if it closes none or several |
| Gates.ChecksInOrder | src/tasks/gate_edit.py:168-210 | an edit that only checks boxes is accepted exactly when it checks none or the first open gate, and the closure names that gate |
| Gates.RunClosesInOrder | src/tasks/gate_edit.py:135-185 | over any run of such edits the closed gates stay the first ones |
| Gates.ReopeningSkips | src/tasks/gate_edit.py:176-185 | an accepted edit that closes a later gate while it reopens another |
| Gates.FaithfulIff | src/tasks/gate_edit.py:135-210 | whatever gates an accepted edit adds, removes or moves: the report names the one gate that was closed, by line and texts, or none if none was, exactly when a reported place holds a gate that was open under the text reported, and the closed gates it reopens and removes outnumber the closed ones it adds by just what the count went down |
| Gates.NothingUnreported | src/tasks/gate_edit.py:188-210 | for an edit that keeps the list of gates this is so exactly when it reopens no more than the count went down by |
| Gates.InsertedGateMisleads | src/tasks/gate_edit.py:169-210 | an accepted edit that adds a closed gate in front and is reported as closing one that stays open |
| GateText.MultiEdit | src/tasks/gate_edit.py:48-57 | the loop applies each edit to the result of the one before |
| GateText.ApplyPatch | src/tasks/gate_edit.py:76-132 | the index loops give the specified candidate or error |
| GateText.ReplaceOnceReplaces | src/tasks/gate_edit.py:62-73 | a hunk replaces its one place and keeps the text around it |
| GateText.EveryPlaceIsReplaced | src/tasks/gate_edit.py:38-46 | an edit of every place keeps the pieces between the places, and each place, found from the left, is replaced |
| GateText.HunkIff | src/tasks/gate_edit.py:60-73 | a hunk is carried out exactly when it has an old line and its old lines stand in one place |
| GateText.SamePathIff | src/tasks/gate_edit.py:92-100 | a section is for the target when one path is the other or ends in it behind a slash |
| GateText.NewlineIsNoHelp | src/tasks/gate_edit.py:65-70 | the second attempt with a newline never succeeds |
| GateText.AcceptedIsOnlyIff | src/tasks/gate_edit.py:38-46 | every accepted single edit of a part replaces the only place of it exactly when no proper start of the part is also its end |
| GateText.AcceptedIsOnly | src/tasks/gate_edit.py:38-46 | in a given text it does exactly when no other place overlaps the first |
| GateText.OverlapIsNotCounted | src/tasks/gate_edit.py:38-46 | a text in which one does |
| GateText.PatchIsReplacement | src/tasks/gate_edit.py:101-129 | a patch for the target replaces, hunk after hunk, the old lines by the new ones, up to the first that is refused |
| Handles.RestoreHandles | src/tasks/resume.py:563-583 | the loops give every session its handle |
| Handles.Select | src/tasks/resume.py:620-636 | the scans with early returns give the specified pick |
| Handles.Picks | src/tasks/resume.py:618-640 | a selector picks the first session of that name, else the one whose id starts with it, else the first of the task that it names, as a number or behind a T; several starts are refused with their count |
| Handles.HandleIsShortest | src/tasks/resume.py:570-583 | an unnamed session's handle is the shortest unambiguous start of its id, of at least eight characters |
| Handles.HandleResolvesBack | src/tasks/resume.py:620-627 | it picks its session exactly when no lane bears it as a name and no other id starts with the whole id |
| Handles.NameResolvesBack | src/tasks/resume.py:620-624 | a name picks its session exactly when no earlier session has it |
| Handles.AllResolveBack | src/tasks/resume.py:563-636 | with prefix-free ids and distinct names that are no handles every handle picks its own session |

## Left out

* Processes, tmux, `ps`, signals, terminals and git: the lane protocol sees them as events that may or may not happen.
* The lane controllers' chronology entries, hand-off documents and the provider's own argument lists.
* Symbolic links, fsync, file descriptors, names of temporary files, the umask, and the cleaning up of stages that dead processes left.
* Digests are the content they were taken from in a transaction and in adoption sets; elsewhere any function, injective where tampering is to be noticed.
* JSON text: a codec reads back what it prints; the order of an object's fields, and Python's equality of numbers with truth values, are not modelled.
* The keyed-list merge takes its entries in the order of their first appearance, not sorted by their printed identity; every theorem about it holds for any order.
* Values in merged documents are not shared, so a later entry cannot change an earlier entry's value in place.
* The order of operations by owner, the owners themselves and the grouped report of a transaction.
* Directories of equal depth are made in any order.
* Which of several errors of one contribution is reported first.
* A chat header that is broken over two lines (an old time stamp over several lines is modelled), carriage returns, whitespace and digits outside ASCII, and entries' raw text.
* The stable event keys derived from digests, and the recorded session name that is used when none is given.
- JsonAcceptance.MergeIff: says when several entries are merged for places that lie apart; for an entry above another one, JsonAcceptance.MergeOneIff says it step by step.
- KeyedListsAcceptance.MergeAtIff: says when one entry is merged; several are merged one after the other, each into what the ones before left.
* The directory renames of a task merge, and the merge of the mind map.
* A text being rewritten for task references consists of ASCII words; letters that equal "s" or "k" only when case is ignored are not modelled.
* Binding takes the spans of all arcs as one list, in their order; parsing the log for the narrative, loading annotations and rendering.
* The parser of task documents: a document is its status, its sessions, the monitor mark and its gates.
* The tmux runner and its handshakes, the arena, sandbox profiles, provider detection, hook adapters, judges and panels.

# A verified model of the task service

The service keeps tasks whose `status` is a state of a stored *workflow definition*. Task writes, workflow
replacements and the first-boot seed run as concurrent transactions coordinated by one shared/exclusive advisory
lock. Every write stages its events in a transactional outbox, which relays deliver to listeners. This project
models those parts in Dafny and proves what they are for. `dafny verify dfyconfig.toml` checks all of it.

## How the model is laid out

| files | what they model |
|---|---|
| `Wrappers`, `Sets`, `Text`, `Json` | options and results, set sizes, `str.strip` and code-point order, JSON trees and their NUL bytes |
| `Definitions`, `Engine`, `GuardLaws` | the `Workflow` class with its worklist, the guard engine, and what its verdicts mean |
| `Documents`, `DocumentLaws`, `DocumentParser`, `DocumentMeaning` | the canonical printer, what a well-formed document is and denotes, the error-collecting parser, and the rules once more on the JSON tree alone |
| `Seed`, `WorkflowStores` | the default definition; the versioned store, the strand check and the seed |
| `Tasks`, `TaskRows` | task values, events, what an `UPDATE` of a tracked row writes; the row edited in place |
| `GuardProtocol`, `GuardSafety`, `GuardReplay` | the guard as a step relation over any number of transactions, and what holds of every run |
| `WipBound`, `WipOvershoot` | how far a WIP limit is overshot, and that it is |
| `StatusRuns`, `StatusRace`, `KeyDrift`, `KeyLawRuns`, `FirstRuns` | which runs keep rows on transitions and which the title-key law; the races that break them, from the first state on |
| `Outbox`, `OutboxProgress`, `OutboxPruning`, `OutboxRelays` | one poll, one prune and the relay loop imperatively, and how they make progress |
| `OutboxProtocol`, `OutboxSafety`, `OutboxRetries`, `OutboxWorlds` | many relays with crashes as a step relation, and its ties to the poll and the bus |
| `Store`, `TagLaws`, `TagEvents`, `TagFilter`, `StoreLaws` | the task, tag and join tables, the laws of tag replacement and filtering, and when a tag event is staged |
| `UseCases`, `Sessions`, `Repositories`, `Services` | the outcome of every use-case; a session that flushes before each query; the services proved to produce those outcomes |
| `Effects`, `Replay`, `SerialAgreement` | what each use-case does and when; the staged events rebuild the tables; an undisturbed protocol run is the serial use-case |

Code that works by changing things is a class or a method with loops: the `Workflow` object, the parser's loops,
`deliver_pending` and `purge_published`, the event bus, the session, the repositories and the services. Each is
proved against a function of the old state. Concurrency is a step relation `Do` with `Run` over step sequences; an
`Abort` is a refusal, a rollback or a crash and may come at any point. Reads see what is committed at that moment
(READ COMMITTED), and a lock ends with its transaction. A tracked row writes only the columns that moved, so an
unguarded patch cannot put an old status back.

JSON objects are maps, so two documents that differ only in key order are equal, as they are in Python. Errors are
values (a kind with its index or path), not messages. `str.casefold` is a parameter `fold` about which nothing is
assumed; `str.strip` is written out.

## What the code turns out to do

- `title_key == title.strip().casefold()` is documented as an invariant of the row. It holds of every serial run
  (`Replay.OutboxRebuildsTheTables`) and fails under concurrency: a rename that changes letter case only writes
  `title` but not `title_key`, so racing a real rename it commits its title beside the other one's key
  (`KeyDrift.RenamesSplitTitleFromKey`, from an empty store `KeyLawRuns.DriftFromNothing`). A run keeps the law throughout if and only if no commit is such a split
  (`KeyLawRuns.RunKeepsKeyLawIff`); runs without case-only renames always keep it
  (`KeyLawRuns.CaseOnlyRenamesAreToBlame`).
- A status change is documented as legal only if the definition names its pair (`docs/FRD.md:43`). That holds of every
  committed event and not of every row: two writers that both read `a` are both checked from `a`, and committed one
  after the other they move the row from `b` to `c` unchecked (`StatusRace.MovesOvertake`, and from an empty store
  `StatusRace.RowLeavesTheTransitions`). Two such writers can also announce one completion twice
  (`StatusRace.CompletedTwice`). A status event is the row's own move if and only if the row still has the status the
  writer read (`StatusRuns.EventsDescribeMovesIff`), and runs in which that always holds keep every row on permitted
  transitions (`StatusRuns.RowsStayOnTransitions`).
- A WIP limit is best effort. The overshoot is at most `k - 1` for `k` task writes in flight
  (`WipBound.OvershootIsBounded`), and for every `k` some run meets that bound (`WipOvershoot.WritersOvershoot`).
- `TaskTagsChanged` is documented (`docs/FRD.md:231`) for a write that leaves the tag set different. `_stage_tags`
  compares display spellings, so asking for `urgent` on a task tagged `Urgent` stages the event with the tag keys
  unmoved (`TagEvents.UrgentAgain`), and again each time it is repeated (`TagEvents.FalseAlarmRepeats`). It fires
  exactly when the set changes or some name is not the stored spelling (`TagEvents.EventIff`). Its `tags` are the new
  set's stored names exactly when every name is spelt as its tag is stored, or is the first of its key when the key is
  new (`TagEvents.EventNamesIff`). The laws of the tag set are stated on keys.
- A failed prune is not undone: the batches committed before the failure stay deleted
  (`Outbox.OutboxTable.PurgePublished`, `OutboxRelays.OutboxRelay.Cleanup`).
- The relay rests only if arrivals let it: fed a full batch before each poll it polls on for ever
  (`OutboxRelays.OutboxRelay.RunUntilIdle`).
- Staging tags after editing the row would turn a duplicate title into a raw integrity error, because the first
  query flushes the edit. `Services.TaskService.StageTags` states that case; the use-cases never reach it.
- Both safety nets in the parser (around `Transition(...)` and around `Workflow(...)`) are unreachable.

## Model

| member | source | states |
|---|---|---|
| GuardSafety.StepKeeps | app/services/tasks/application/service.py:43-50 | every step of every transaction keeps the global invariant: versions, locks, rows, log, and what each transaction holds |
| GuardSafety.NoTaskIsStranded | app/services/workflows/application/service.py:32-43 | in every reachable state of every interleaving each committed status is a state of the highest-version definition, which parses, and no task exists while no definition does |
| GuardSafety.VersionHistory | app/services/workflows/infrastructure/repository.py:68-86 | committed versions are exactly 1..n, each reads back as it was installed, and a pending install never collides |
| GuardSafety.ActiveReadsBack | app/services/workflows/infrastructure/repository.py:53-66 | the highest document always parses, to the definition last installed |
| GuardSafety.EnforcementIsLinearised | app/services/tasks/application/service.py:119-135 | each committed `TaskStatusChanged` event names a transition of the definition active at that commit with its roles guard met; each committed create landed in an entry state; each `TaskCompleted` event names a completing state |
| StatusRuns.StepDescribesIff | app/services/tasks/application/service.py:247-259 | a step's status events are the rows' own moves if and only if the step commits no status write over a moved status |
| StatusRuns.StepMovesLegally | app/services/workflows/domain/engine.py:91-107 | a step that overtakes nothing moves each row along a transition of the active definition whose roles guard the actor meets |
| StatusRuns.UnovertakenMoveIsLegal | app/services/tasks/application/service.py:150-165 | both, for every step from every reachable state |
| StatusRuns.CompletionEntersIff | app/services/workflows/domain/engine.py:109-111 | a committed completion is the row entering that state if and only if the row was not already there |
| StatusRuns.EventsDescribeMovesIff | app/services/tasks/application/service.py:137-165 | from the first state on, every committed status event is its row's own move if and only if no commit of the run overtakes |
| StatusRuns.RowsStayOnTransitions | app/services/tasks/application/service.py:43-50 | runs in which no commit overtakes keep every row on permitted transitions of the definitions active at its moves |
| StatusRace.MovesOvertake | app/services/tasks/application/service.py:150-165 | from any state in which a task may go to `b` and to `c`, two writers take it to `b` and then from `b` to `c`, whatever the pair (`b`, `c`) is |
| StatusRace.RowLeavesTheTransitions | app/services/workflows/domain/engine.py:91-107 | from an empty store, a run in which a row makes a move its definition does not name |
| StatusRace.CompletedTwice | app/services/tasks/application/service.py:257-258 | from an empty store, a run in which one entry into a completing state is announced twice |
| GuardSafety.MoveCheckIsTotal | app/services/workflows/domain/engine.py:91-107 | a guarded edit never meets a `from` status its definition does not know, so the raw `ValueError` cannot escape |
| GuardSafety.ChangesAreAnnounced | app/services/tasks/application/service.py:247-259 | whichever step creates, edits, moves or removes a task commits, in that step, the event that says so: an edit's names every column that moved with its new value, a move's names the status the row had exactly when it overtook no other write; the log only grows |
| GuardReplay.LogGivesTheRows | app/services/tasks/application/service.py:187-259 | in every reachable state of every interleaving, folding the committed events column by column gives exactly the title, description, status and priority of every committed row |
| GuardReplay.StepReplays | app/services/tasks/infrastructure/repository.py:33-39 | every step keeps that fold equal to the rows, and every waiting commit's events exactly those of its write |
| WipBound.StepLoad | app/services/workflows/domain/engine.py:130-138 | while a definition stands, no step raises items-plus-cleared-writers of a limited state past limit - 1 + lock holders |
| WipBound.OvershootIsBounded | app/services/tasks/application/service.py:172-185 | from an install to the next, with at most k task writes in flight, count plus cleared writers stays within limit + k - 1, or what the state already held if that was more |
| WipBound.SerialNeverOvershoots | app/services/workflows/domain/engine.py:130-138 | one task write at a time never exceeds a limit that held at the install |
| WipOvershoot.AllPrepare | app/services/tasks/application/service.py:172-185 | below the limit any number of creates take the guard, count and pass before any commits |
| WipOvershoot.WritersOvershoot | app/services/workflows/domain/engine.py:130-138 | from any state one below a limit, for every k the run of k creates that count before any commits ends at limit + k - 1, with never more than k writes in flight |
| WipOvershoot.OvershootFromNothing | app/services/tasks/application/service.py:43-50 | such runs exist from the first state on: install a definition with limit 1, and k creates leave k items |
| KeyLawRuns.StepKeepsKeys | app/services/tasks/domain/models.py:82-105 | from a state whose rows and held rows obey the key law, a step leads to such a state if and only if it does not commit a same-key rename over a row whose key has moved |
| KeyLawRuns.RunKeepsKeyLawIff | app/services/tasks/domain/models.py:44-50 | a run from the first state keeps the law in every state if and only if it contains no such commit |
| KeyLawRuns.CaseOnlyRenamesAreToBlame | app/services/tasks/application/service.py:137-165 | runs in which no edit respells the title it read under the same key keep the law throughout |
| KeyLawRuns.StoredKeysAreDistinct | app/services/tasks/infrastructure/repository.py:100-108 | in every reachable state of every interleaving no two stored tasks share a title key |
| KeyDrift.RenamesSplitTitleFromKey | app/services/tasks/application/service.py:137-165 | for every task, a case-only rename racing a key-changing one commits its title beside the other one's key |
| KeyLawRuns.DriftFromNothing | app/services/tasks/application/service.py:137-165 | from an empty store, install a definition, create one task and let the two renames race: the law fails |
| SerialAgreement.CreateAlone | app/services/tasks/application/service.py:52-74 | a create that meets no other transaction commits when the serial use-case succeeds, with the same rows and the same task events, whatever tags it gives, and commits nothing when the use-case refuses |
| SerialAgreement.ReplaceAlone | app/services/tasks/application/service.py:108-135 | the same for a replacement, whatever tags it gives or clears; one without task events leaves the rows alone |
| SerialAgreement.PatchAlone | app/services/tasks/application/service.py:137-165 | the same for a patch, guarded when it names `status` and unguarded when it does not |
| SerialAgreement.DeleteAlone | app/services/tasks/application/service.py:167-170 | the same for a deletion |
| SerialAgreement.PutAlone | app/services/workflows/application/service.py:24-43 | a replacement of the definition alone commits exactly when the document is well-formed and strands no task, as the next version with its event |
| SerialAgreement.SeedAlone | app/services/workflows/infrastructure/seed.py:36-44 | a seed alone stores the default exactly when nothing is stored |
| SerialAgreement.FirstBoot | app/services/workflows/infrastructure/seed.py:36-44 | from nothing at all the seed's run reaches a state with the default active as version 1 |
| OutboxProtocol.StepKeeps | app/core/outbox.py:126-181 | every step of producers, relays, crashes, purges and re-drives keeps the outbox invariant |
| OutboxSafety.NothingIsLost | app/core/outbox.py:141-181 | every committed row is exactly one of pending, published, dead-lettered, purged; a published or purged one had an attempt that ran every subscribed handler in order to its end |
| OutboxSafety.ClaimsAndRetries | app/core/outbox.py:141-149 | relays never share a row and hold only deliverable ones; no row is both published and dead-lettered; pending means retries left, dead-lettered means none |
| OutboxSafety.RedeliveryNeedsACrash | app/core/outbox.py:131-139 | a row's dispatches complete at most once more than polls were lost, so at most once without crashes |
| OutboxRetries.DeliverMeans | app/core/outbox.py:150-179 | a delivery settles the row as published now, or with one retry more and dead-lettered now only if that was the last allowed; the table waits for the commit |
| OutboxRetries.CommitMeans | app/core/outbox.py:180-181 | the commit writes each claimed row as its delivery settled it and no other |
| OutboxRetries.PurgeMeans | app/core/outbox.py:212-221 | a prune takes only rows published at its cutoff or before, never a pending or dead-lettered one |
| OutboxRetries.DeadMeansExhausted | app/core/outbox.py:157-166 | in every run a dead-lettered row has failed `max_retries` deliveries since it was staged or last re-driven |
| OutboxSafety.LoneRelayIsOnePoll | app/core/outbox.py:126-181 | a lone relay's claim, dispatches and commit leave exactly the table of one poll that delivers the rows whose dispatch completed |
| OutboxWorlds.DispatchIsRan | app/core/event_bus.py:40-49 | every outcome of the bus's fan-out is a dispatch of the protocol, completed exactly when the bus succeeds, with exactly the handlers that ran in the log |
| OutboxWorlds.WorldEnds | app/core/outbox.py:150-179 | whatever the listeners, the registry and the payloads do, the dispatches they induce are ones the protocol takes, and complete exactly the rows `deliver_pending` delivers |
| OutboxWorlds.LoneRelayIsDeliverPending | app/core/outbox.py:126-181 | so a lone relay leaves exactly the table proved of `deliver_pending` |
| OutboxWorlds.ReachedIsServed | app/core/outbox.py:141-181 | from every reachable state of the outbox, the bypass bound and the draining of the queue hold |
| OutboxProgress.BypassIsBounded | app/core/outbox.py:141-179 | a deliverable row is passed by in at most (retries left to older rows) / batch_size polls, whatever the listeners do |
| OutboxProgress.ClaimedInTime | app/core/outbox.py:141-147 | so one poll more always claims it |
| OutboxProgress.PollSpends | app/core/outbox.py:150-179 | each poll spends one retry credit for every row it claims: a termination measure |
| OutboxProgress.QueueDrains | app/core/outbox.py:150-181 | with nothing arriving, as many polls as there is credit leave nothing pending |
| Outbox.FirstOf | app/core/outbox.py:141-147 | a batch is the first n ids in order: ascending, all deliverable, and before every one left out |
| Outbox.OutboxTable.DeliverPending | app/core/outbox.py:126-181 | of exactly the claimed batch, a row all of whose handlers complete is published now with its retries as they were; any other has one retry more, stays deliverable if that is below `max_retries` and is dead-lettered now if not; no other row changes; returns how many were claimed |
| Outbox.OutboxTable.PurgePublished | app/core/outbox.py:184-235 | deletes only rows published at the cutoff or before and not dead-lettered, as many as there are or the committed batches cover; every other row stands; returns the number, and raises exactly when it reaches the batch whose transaction fails |
| OutboxPruning.PrunedLeaves | app/core/outbox.py:228-235 | a pass leaves that many fewer eligible rows, and every pending, dead-lettered or later published row as it was |
| OutboxPruning.PassesDrain | app/core/outbox.py:203-206 | repeated passes drain any backlog: with advancing cutoffs, enough passes for all eligible at the last leave nothing that was eligible at the first |
| Outbox.EventBus.Subscribe | app/core/event_bus.py:36-38 | the handler goes last among its type's, and no other type's list moves |
| Outbox.EventBus.Dispatch | app/core/event_bus.py:40-49 | handlers complete in subscription order up to the first that raises, and all do exactly when it succeeds |
| OutboxRelays.OutboxRelay.Tick | app/core/outbox.py:296-308 | a tick is one poll, or no change and zero when its transaction fails; a short committed poll leaves less than a batch |
| OutboxRelays.OutboxRelay.RunUntilIdle | app/core/outbox.py:284-294 | with rows arriving between ticks, every poll but the last spends a full batch of what there was and what arrived, so the loop rests once the ticks outrun both; a rest after a committed poll leaves less than a batch; once arrivals stop it rests within the polls they and the retries there can fill, and one more; fed a full batch before each poll it never rests |
| OutboxRelays.RestsOnceArrivalsStop | app/core/outbox.py:284-294 | with no arrivals from tick n on, the loop rests once ticks * batch_size exceeds the retries there plus those of the arrivals before n, and never polls longer than they can fill and one poll more |
| OutboxRelays.OutboxRelay.Cleanup | app/core/outbox.py:310-317 | a cleanup whose pass fails keeps what the batches before the failure deleted, and nothing else goes |
| DocumentLaws.RoundTrip | app/services/workflows/serialization.py:30-47 | parsing the printed document of any definition that meets the document rules is accepted and gives that definition back |
| DocumentLaws.PrintInjective | app/services/workflows/serialization.py:30-37 | two rule-abiding definitions with one document are equal |
| DocumentLaws.PrintAfterParseIdempotent | app/services/workflows/serialization.py:70-94 | printing what was parsed is accepted, and printing it again changes nothing |
| DocumentLaws.FixpointIffCanonical | app/services/workflows/serialization.py:30-47 | a well-formed document survives parse-then-print unchanged if and only if it is spelt canonically |
| DocumentLaws.ConstructorCannotRaise | app/services/workflows/serialization.py:85-88 | content without errors always denotes a valid definition, so the net around the constructor catches nothing |
| DocumentLaws.AcceptedObeysRules | app/services/workflows/serialization.py:70-94 | whatever is accepted meets every document rule, so it can be stored and read back |
| DocumentParser.AcceptedIffSilent | app/services/workflows/serialization.py:70-94 | a document is well-formed if and only if no problem is to be reported for it |
| DocumentParser.ContentOkIffSilent | app/services/workflows/serialization.py:78-84 | past the structural layer, the content is in order exactly when no content problem exists |
| DocumentParser.StateIndexReported | app/services/workflows/serialization.py:163-192 | a state entry gets an error if and only if it is ill-formed, whatever else is wrong |
| DocumentParser.TransitionIndexReported | app/services/workflows/serialization.py:195-248 | the same for a transition entry |
| DocumentParser.WorkflowFromDocument | app/services/workflows/serialization.py:70-94 | accepts exactly the well-formed documents, as a valid `Workflow` equal to what they denote, and otherwise reports exactly the problems owed |
| DocumentParser.RejectNulBytes | app/services/workflows/serialization.py:50-67 | reports exactly the paths at which the tree holds a NUL |
| DocumentParser.ParseStates | app/services/workflows/serialization.py:114-128 | reports exactly the ill-formed and duplicate entries, keeps exactly the declared names, and with nothing to report returns every state in order |
| DocumentParser.ParseTransitions | app/services/workflows/serialization.py:195-213 | reports exactly the rules each entry breaks; with none, files every transition under its pair |
| DocumentParser.ParseTransition | app/services/workflows/serialization.py:204-248 | an entry in order is filed and `Transition(...)` cannot raise; any other leaves the table alone |
| DocumentParser.ParseStructure | app/services/workflows/serialization.py:97-111 | the guard clauses are silent exactly on an object holding the two lists and nothing else |
| DocumentParser.JudgeReachability | app/services/workflows/serialization.py:89-93 | one problem for each unreachable state, and none exactly when all are reachable |
| DocumentMeaning.AcceptedExactly | app/services/workflows/serialization.py:70-94 | on the JSON tree alone: a document is accepted if and only if its entries are in order and every declared name ends a walk from an entry that is marked initial, or from the first when none is marked |
| DocumentMeaning.DenotesExactly | app/services/workflows/serialization.py:131-133 | entry by entry, what an accepted document gives: names, marks and transitions as written, every other key as `meta`, nothing else |
| DocumentMeaning.StateFaultsExactly | app/services/workflows/serialization.py:163-192 | which fault a bad state entry has |
| DocumentMeaning.ShapeFaultsExactly | app/services/workflows/serialization.py:216-231 | which fault a transition entry has that is not an object with three texts |
| Json.NulPathsDecideNulFree | app/services/workflows/serialization.py:50-67 | a tree is NUL-free exactly when the screen finds no path in it |
| Definitions.Workflow.Build | app/services/workflows/domain/definition.py:29-43 | construction succeeds exactly on distinct, non-empty states with transitions filed under known pairs; no states and duplicate states are told apart |
| Definitions.Workflow.AllowTransition | app/services/workflows/domain/definition.py:89-97 | adds that one transition exactly when both ends are known, the pair is free and name and meta are allowed; else changes nothing |
| Definitions.Workflow.UnreachableStates | app/services/workflows/domain/definition.py:112-126 | terminates with exactly the states at which no walk from a marked state, or from the first when none is marked, ends |
| Definitions.Workflow.Search | app/services/workflows/domain/definition.py:119-126 | the worklist visits exactly the reachable names |
| Definitions.ReachableIsWalked | app/services/workflows/domain/definition.py:112-126 | a name is reachable if and only if a walk along transitions ends at it that begins at a state marked initial, or at the first state when none is marked |
| Definitions.ValuesExactly | app/services/workflows/domain/models.py:25-43 | a state or transition is made exactly when its name has visible content and its `meta` has no document field; which error otherwise |
| Definitions.MarkedExact | app/services/workflows/domain/definition.py:67-71 | the entry names are those of the states marked initial |
| Definitions.EntriesExactly | app/services/workflows/domain/definition.py:67-71 | a name is an entry if and only if a state of that name is marked initial, or none is marked and it is the first |
| Definitions.DefaultExactly | app/services/workflows/domain/definition.py:73-76 | the default entry is the first state marked initial, or the first state when none is marked |
| Engine.LazyOccupancyDecidesAlike | app/services/workflows/domain/engine.py:60-107 | when the engine asks for no occupancy, the empty map decides every create and every move as any count would |
| GuardLaws.RoleGuardMeans | app/services/workflows/domain/engine.py:117-128 | the role guard refuses exactly the actors who hold none of the declared roles |
| GuardLaws.MoveVerdict | app/services/workflows/domain/engine.py:91-107 | for a definition a document can carry, a move goes through if and only if it stays put or follows a transition whose roles are met into a state that is not full; which refusal otherwise, authorization before capacity; nothing raw escapes |
| GuardLaws.EntryVerdict | app/services/workflows/domain/engine.py:74-89 | a create lands in the state it names if work may start there, or without one in the first in which it may, unless that is full; which refusal otherwise |
| GuardLaws.CompletesExactly | app/services/workflows/domain/engine.py:109-111 | a state completes if and only if its own `completes` is there and is not null, false, zero or empty |
| GuardLaws.NeedsExactly | app/services/workflows/domain/engine.py:60-72 | occupancy is asked for if and only if the write enters, from elsewhere, a state that declares `wip_limit` |
| Seed.DefaultObeysRules | app/services/workflows/infrastructure/seed.py:12-33 | the default meets every document rule, so the seed can be read back |
| Seed.DefaultExactly | app/services/workflows/infrastructure/seed.py:19-33 | the default's states, marks and six named transitions, spelt out |
| Seed.DefaultWorkflow | app/services/workflows/infrastructure/seed.py:12-33 | the six `allow_transition` calls all succeed and build that definition |
| WorkflowStores.StrandedExactly | app/services/workflows/application/service.py:34-38 | a status is reported as stranded exactly when some task has it and the definition lacks it, with the number of tasks that have it |
| WorkflowStores.WorkflowStore.GetActive | app/services/workflows/infrastructure/repository.py:53-66 | as soon as anything was stored, the highest version is found and parses |
| WorkflowStores.WorkflowStore.Append | app/services/workflows/infrastructure/repository.py:68-86 | the next version holds the printed definition and reads back as it, with the event in the same commit |
| WorkflowStores.WorkflowStore.ReplaceActive | app/services/workflows/application/service.py:24-43 | refused as invalid, refused with the number of tasks in each status it would strand, or stored as what the document denotes; a refusal changes nothing |
| WorkflowStores.WorkflowStore.SeedIfMissing | app/services/workflows/infrastructure/seed.py:36-44 | stores the default as version 1 in an empty table and leaves any other alone |
| Text.StripLaws | app/services/tasks/domain/models.py:39-50 | stripping is idempotent, and only a blank string strips to nothing |
| Text.StripMeans | app/services/tasks/domain/models.py:39-50 | stripping takes the white space off both ends and nothing else |
| Text.LessMeans | app/services/workflows/serialization.py:30-37 | strings are ordered by the code point at which they first differ |
| Text.SortedMeans | app/services/workflows/serialization.py:30-37 | transitions are printed by their `from` and then by their `to` |
| Tasks.FromInput | app/services/tasks/domain/models.py:52-68 | fails exactly when the title's key is empty; otherwise the stripped title with its key and the given fields, obeying the key law |
| Tasks.ApplyReplace | app/services/tasks/domain/models.py:82-94 | fails exactly when the title's key is empty; otherwise every field is the given one and only the id stays |
| Tasks.ApplyPatch | app/services/tasks/domain/models.py:96-105 | fails exactly when a named title's key is empty; otherwise named fields are the given ones, the others stay, and the key law is kept |
| Tasks.UnchangedRow | app/services/tasks/application/service.py:247-250 | an edit of a lawful row stages no event exactly when it leaves the row as it was |
| Tasks.ChangedExactly | app/services/tasks/domain/models.py:74-80 | the changed fields are exactly those that differ, each once, in canonical order |
| Tasks.EventsSayWhatMoved | app/services/tasks/application/service.py:247-259 | the events of an edit in order: an update exactly when a field differs, a status change exactly when the status does, a completion exactly when it moved into a completing state, and no other |
| TaskRows.AssignNext | app/services/tasks/domain/models.py:101-105 | assigning a dictionary's items one by one, in any order, comes to the patch of its fields |
| TaskRows.Row.ApplyPatch | app/services/tasks/domain/models.py:96-105 | the loop ends as the patch, or refuses unknown keys untouched, or stops at an empty title with title and key as they were |
| TaskRows.Row.ApplyReplace | app/services/tasks/domain/models.py:82-94 | all fields are replaced, or none at an empty title |
| TagLaws.WantedFirstSpelling | app/services/tags/infrastructure/repository.py:23-26 | a key keeps the first spelling the caller used |
| TagLaws.ResolveLaws | app/services/tags/infrastructure/repository.py:19-41 | answers exactly the normalised keys, keeps existing ids and spellings, mints one tag per missing key in its first spelling, keeps keys unique |
| TagLaws.SameSpellingsSameKeys | app/services/tasks/application/service.py:218-223 | matching spellings imply matching keys with every tag already there, so the early return skips nothing |
| TagLaws.StagingLaws | app/services/tasks/application/service.py:209-230 | after staging, the task's keys are the requested keys in both branches, other tasks' keys stand, and the vocabulary gains exactly the requested keys |
| TagEvents.EventIff | app/services/tasks/application/service.py:218-230 | the tag event is staged if and only if the task's tag keys change or some requested name is not spelt as its tag is stored |
| TagEvents.FalseAlarmIff | app/services/tasks/application/service.py:218-223 | a request for the tags the task has leaves the set and stages the event exactly when some name is not the stored spelling |
| TagEvents.UrgentAgain | app/services/tasks/application/service.py:218-230 | the input: `urgent` asked of a task tagged `Urgent` |
| TagEvents.RepeatIff | app/services/tags/infrastructure/repository.py:30-41 | repeating any request stages the event again exactly when some name is neither the stored spelling nor, for a new key, the first of its key in the request |
| TagEvents.FalseAlarmRepeats | app/services/tags/infrastructure/repository.py:30-41 | a false alarm goes off again at each repetition, since `resolve` keeps the stored spelling |
| TagEvents.EventNamesIff | app/services/tasks/application/service.py:225-230 | the names in the event are the task's stored names exactly when every name is the stored spelling or, for a new key, the first of its key in the request |
| TagEvents.StoredAfterIff | app/services/tags/infrastructure/repository.py:23-41 | which spellings the tables hold after the call, said of the tables before it |
| TagFilter.MatchingCount | app/services/tags/infrastructure/repository.py:80-86 | with unique keys a task's distinct matching tags are as many as the requested keys it carries |
| TagFilter.FilterIsExact | app/services/tags/infrastructure/repository.py:72-87 | AND by counting returns exactly the tasks carrying every requested key, OR those carrying any; no keys match nothing |
| Repositories.TagRepository.Wanted | app/services/tags/infrastructure/repository.py:23-26 | the loop collects one entry per key, or raises exactly when some name is blank |
| Repositories.TagRepository.Resolve | app/services/tags/infrastructure/repository.py:19-41 | leaves pending exactly the minted tags, or raises what its own flush met |
| Repositories.TagRepository.SetForTask | app/services/tags/infrastructure/repository.py:43-56 | the task's links become exactly the given ids; nothing else moves |
| Repositories.TaskRepository.Stage | app/services/tasks/infrastructure/repository.py:41-49 | flushes the row into the transaction, or rolls back with the translated violation |
| Repositories.TaskRepository.Persist | app/services/tasks/infrastructure/repository.py:33-39 | the row and its events commit together or not at all |
| Sessions.Session.Flush | app/services/tasks/infrastructure/repository.py:41-49 | makes the pending changes visible, or reports the violated constraint and rolls everything back |
| Services.TaskService.StageTags | app/services/tasks/application/service.py:209-230 | on a sound transaction, exactly the tag replacement and its event; with a violation pending, the raw error and a rollback |
| Services.TaskService.OccupancyFor | app/services/tasks/application/service.py:172-185 | the counts exactly when the engine asks for them, and then the raw error if a violation is pending |
| Services.TaskService.PersistUpdate | app/services/tasks/application/service.py:187-207 | nothing when nothing moved, else one commit of row, tags and events, or the duplicate with the caller's title |
| Services.TaskService.Create | app/services/tasks/application/service.py:52-74 | answers and leaves committed exactly the create outcome: a clash is always `DuplicateTask` with nothing persisted, a blank tag undoes the staged row |
| Services.TaskService.Replace | app/services/tasks/application/service.py:108-135 | exactly the replace outcome, with its order of refusals |
| Services.TaskService.Patch | app/services/tasks/application/service.py:137-165 | exactly the patch outcome; without `status` no definition is read |
| Services.TaskService.Delete | app/services/tasks/application/service.py:167-170 | exactly the row and its links go, with the event |
| Services.TagService.Delete | app/services/tags/application/service.py:21-31 | refused with the count while any task holds the tag, else exactly that tag goes |
| Effects.VerdictsAreEager | app/services/tasks/application/service.py:172-185 | whatever was fetched, creates and moves are judged as on the full count |
| Effects.CreateEffect | app/services/tasks/application/service.py:52-74 | exactly when a create succeeds; it then adds that one row, in the status named or in the first state marked initial, or in the first when none is marked, with exactly the requested tag keys, and touches no other task or tag |
| Effects.ReplaceEffect | app/services/tasks/application/service.py:108-135 | exactly when a replacement succeeds; then every field and the tag keys of that row are as asked, an omitted status being the first state marked initial or the first of all, omitted tags cleared, the rest untouched |
| Effects.PatchEffect | app/services/tasks/application/service.py:137-165 | exactly when a patch succeeds; then only the named members moved, and the tag keys only if tags were given |
| Effects.DeleteEffect | app/services/tasks/application/service.py:167-170 | a deletion takes exactly the row and its links and no tag |
| Effects.DeleteTagEffect | app/services/tags/application/service.py:21-31 | a tag goes exactly when no task carries its key, and no task's tags change; otherwise the refusal gives the number of tasks that carry it |
| StoreLaws.Overwriting | app/services/tasks/infrastructure/repository.py:100-108 | committing an edited row of a lawful store can violate only the title key, exactly when another row holds it |
| StoreLaws.Inserting | app/services/tasks/infrastructure/repository.py:33-49 | the same for a new row |
| Replay.EveryRequestIsRecorded | app/services/tasks/application/service.py:52-74 | any request: a refusal changes nothing and is never a raw violation; a success stages events that rebuild the new view from the old; the store stays lawful |
| Replay.EditedView | app/services/tasks/application/service.py:247-259 | the update events take the view from the old row to the new one |
| Replay.StagedView | app/services/tasks/application/service.py:209-230 | a tag event takes the view across the staging it reports |
| Replay.DroppedTagView | app/services/tags/application/service.py:21-31 | deleting an unheld tag removes exactly its key from the vocabulary |
| Replay.OutboxRebuildsTheTables | app/services/tasks/application/service.py:187-259 | after any serial run the outbox replays strictly, from nothing, to the task table, each task's tag keys and the vocabulary; keys are distinct and normalised |

## Left out

- HTTP: routers, request and response models and their length bounds, error envelopes, middleware, configuration, health, logging (`last_error` and log levels included), response compression.
- SQL itself: tables are maps, JSONB is the identity on trees, a commit with its flush is one step, and the unit of work's insert ordering is not modelled.
- Task listing's order and paging, which the database does, and `list_with_counts`, a read-only listing; only the tag filter of the list is modelled.
- Time: the relay's intervals, sleeps, `start` and `stop`; polls are steps, timestamps are given, the prune's cutoff is arbitrary. An outbox id stands for the pair (`occurred_at`, `id`).
- `max_retries`, the event registry and the subscriptions are fixed within a run of the outbox protocol, and `max_retries` is at least 1, as its setting demands; changing them between deployments is not modelled.
- OutboxPruning.PassesDrain: no row is published between the passes; a row published meanwhile counts from the next backlog.
- Rows of the outbox are inserted by the protocols as committed producers' events; event payloads are opaque and reconstruction is a parameter that may fail.
- Concurrent tag edits and the in-use guard of tag deletion under concurrency, which the code does not serialise: tag properties are serial, and the guard protocol's writes carry no tags.
- SerialAgreement.CreateAlone: the refusal of a blank tag name has no counterpart in the guard protocol, which carries no tags; every other outcome is covered.
- SerialAgreement.ReplaceAlone: likewise for a blank tag name; tag rows and tag events are the serial model's alone.
- SerialAgreement.PatchAlone: likewise for a blank tag name.
- `legal_moves`, read without the guard: it may pair a task with a definition that no longer fits, so nothing is claimed of it.
- `str.casefold` is any function, so no bound on key length is claimed.
- UUIDs are fresh numbers; an id drawn by a refused request may be drawn again.
- The service's task objects are values put back into the session after an edit; aliasing between the identity map and the caller is not modelled (`TaskRows` has the in-place edit itself).
- DocumentParser.WorkflowFromDocument: problems are compared as a set; their order and wording, and repeats of one problem, are not modelled. The loops return their problems instead of appending to a shared list.
- WorkflowStores.WorkflowStore.ReplaceActive: one request at a time; its concurrency is the guard protocol's.
- Values a hand-written guard could hold that Python cannot compare or iterate end in one `RawTypeError`, whatever the exception's class; documents that parse cannot hold them.
- Snapshots are values, so the revalidation `snapshot` performs is not modelled.

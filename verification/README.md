# Pact: a verified model of its coordination core

Pact lets coding agents share a repository. An agent opens a session, reserves scopes of the
repository under a time lease, starts an intent, attaches a worktree, moves the intent through its
statuses and hands work over. The server keeps all of it in PostgreSQL, one transaction per command,
with an idempotency record, a project event log and an outbox. The desktop follows the log through a
resumable event stream. Around this core stand knowledge records, canonical repository
synchronisation, the binding of a checkout to a server, and the editor of Codex's configuration.

This project models these parts in Dafny and proves what they promise over whole runs. Nothing here
runs the original program.

## How the model is built

* **Tables.** `Tables` holds the rows of one organization and one project as maps and sequences. A
  `Pool` object holds the committed tables. Every repository class has one method per command. The
  method reads the tables, changes a copy statement by statement and commits it at the end, so a
  command that fails leaves the tables as they were. Each method is proved equal to a specification
  function (`StartEffect`, `OfferEffect`, ...). `Server.Service.Handle` sends every command to its method
  and shows that it is one step of `Server.Exec`; all run theorems speak of `Exec`.
* **Time.** A step carries two times: `tt`, the `transaction_timestamp()` fixed at BEGIN, and `clock`,
  the time at which it takes effect. Only `tt <= clock` and a clock that never runs backwards are
  assumed (`Server.Timed`), because a transaction may wait on the project's advisory lock. A
  transaction takes effect at one point of the run, its commit, when others come to see its writes.
* **Runs.** `Runs.At(revision, root, steps, n)` is the state after the first n steps of a run that starts
  with project.create. The steps are arbitrary commands with arbitrary arguments. `Runs.Invariant` is the
  conjunction of all untimed invariants and is proved for every reachable state.
* **The schema.** The constraints that decide whether a command succeeds are part of the model. They are
  the time order of sessions (internal/platform/migrations/sql/000001_core.sql:318), the lease order of
  claims, one active claim per intent and resource (000001_core.sql:633), one stored open offer per
  intent, one repository in use per GitHub number, and provider attempts in time order. Two consequences
  show up as results: a session whose lease has lapsed can no longer be closed
  (`AgentSessions.CloseNeedsRunningLease`), and a request that names one resource in two modes fails
  (`Guarantees.TwoModesAreRefused`).
* **Two descriptions of every command.** Besides the specification functions, `Admission` says in terms of
  rows and requests alone when a command succeeds, and `Rows` what it writes and answers, field by field.
  `PathLaws`, `StreamRules`, `KnowledgeRules`, `BindingRules` and `CodexRules` do the same for the parts
  around the core. The two descriptions are proved equivalent.
* **Values.** Identifiers come from a counter, as uuidv7 never repeats. An event is identified by its
  project sequence. A request digest is a number that the caller supplies: the theorems hold for any
  digest function. An agent is its sponsor and its type. Provider answers, known knowledge records, Git
  fingerprints and new keys are parameters.

## Where the code departs from what it promises

* **Late heartbeats.** `Heartbeat` tests only the status of the session and of its claims, never
  `expires_at`. A late heartbeat revives a lapsed lease. Exclusion over a run therefore holds if and only
  if every accepted heartbeat revives safely (`Exclusion.ExclusionOverRuns`). The condition speaks of the
  claims that are stored when the heartbeat arrives. Timely heartbeats are enough
  (`Exclusion.TimelyHeartbeatsKeepExclusion`), and `LateHeartbeat.LateHeartbeatBreaksExclusion` is a run of
  five steps that breaks exclusion without any lag and without any override.
* **Lease arithmetic** does not need timely heartbeats. It holds if and only if no reservation is dated
  before its session's last sign of life (`Leases.MarginOverRuns`).
* **Normalising scopes twice.** White space is trimmed before the path is cleaned, so `./ a` becomes ` a`.
  `Scopes.NormalizingAgain` gives the exact condition, and `Scopes.NormalizingAgainCanDiffer` an input.
* **Supersession.** The superseding record is read without a lock. The foreign key makes a write wait for
  whoever holds the target's row, which rules out two records that supersede each other
  (`SupersessionRace.NeverMutual`). Three transactions can still close a circle
  (`SupersessionRace.ThreeCanCloseACircle`). Over every interleaving no circle is closed if and only if
  every write finds its record out of reach of the one that is to supersede it
  (`SupersessionRace.AcyclicOverInterleavings`).
* **Lazy expiry** agrees with eager expiry over a run if and only if no command that would be accepted has
  a lag that straddles the deadline it depends on (`LazyExpiry.SameCommandsSucceed`). An answer then
  succeeds lazily only (`LaggingHandoffs.LazyAcceptsLate`), an offer eagerly only
  (`LaggingHandoffs.EagerOffersEarly`). Without lag the two always agree
  (`LazyExpiry.LazyIsEagerWithoutLag`).
* **Legacy node identities.** A version 1 identity names no server, and ensuring it keeps its key.
  EnsureNodeIdentity does not take the lock that binding holds. So a process that ensures the identity
  between the two writes of a rebind migrates the key to the new server, and the key then serves two. It
  makes no difference whether the binding process is still at work or has crashed
  (`BindingRuns.LegacyKeyCanServeTwo`). Over every run each key keeps one server if and only if every such
  migration is for the only server its key is in use with (`BindingRuns.KeysOverRuns`). Identities of
  version 2 are safe (`BindingRuns.NoKeyServesTwo`).
* **Slugs.** A slug can itself equal one of its suffixed candidates. One probe more than slugs taken is
  enough for every set of taken slugs if and only if it does not (`Slugs.ProbesStayWithinBound`), and
  it does exactly for slugs of 62 or 63 characters that already end like a suffixed one
  (`Slugs.OwnCandidateByForm`). Counting suffixed candidates only, the bound holds for all
  (`Slugs.SlugAllocation`).
* **Event stream.** `readSSE` departs from section 9.2.6 of the HTML Living Standard in two ways: it
  flushes at end of file, and an id is not sticky (`EventStream.EmittedWithoutBlankLine`,
  `EventStream.IdIsNotSticky`).

## Model

| member | source | states |
|---|---|---|
| Scopes.OverlapIsIntersection | internal/coordination/postgres_repository.go:617-635 | the string tests on normalised scopes hold if and only if the two reservations share a repository path |
| Scopes.PrefixIsComponentPrefix | internal/coordination/postgres_repository.go:633-635 | string prefix plus "/" is prefix of component lists, for any two strings |
| Scopes.PathContainsIsPrefix | internal/coordination/postgres_repository.go:633-635 | on normal locators containment is prefix of component lists |
| Scopes.OverlapIsReflexiveSymmetricMonotone | internal/coordination/postgres_repository.go:617-631 | a scope conflicts with itself, order does not matter, and widening a reservation never loses a conflict |
| Scopes.Normalize | internal/coordination/service.go:333-375 | the one-pass loop with its set of string keys gives the normal forms, first occurrences kept, or the first error |
| Scopes.NormalForm | internal/coordination/service.go:333-375 | an accepted result is non-empty, free of duplicates, normal, and holds exactly the normal forms of what was asked |
| Scopes.NormalFormOrder | internal/coordination/service.go:333-375 | of two first occurrences the one asked for first comes first |
| Scopes.SeenKeyIsInjective | internal/coordination/service.go:367-371 | the string key of the seen map tells any two scopes apart |
| Scopes.CleanedLocatorIsNormal | internal/coordination/service.go:351-366 | an accepted locator has no empty, "." or ".." component and no backslash |
| Scopes.NormalizingAgain | internal/coordination/service.go:333-375 | normalising an accepted result again is the identity if and only if no locator in it begins or ends with white space |
| Scopes.NormalizingAgainCanDiffer | internal/coordination/service.go:351-366 | the condition fails for "./ a", which is accepted as " a" and then as "a" |
| PathLaws.DotVanishes | internal/coordination/service.go:351-366 | cleaning: an empty component and "." may be left out anywhere in a path |
| PathLaws.UpCancelsName | internal/coordination/service.go:351-366 | cleaning: a name and the ".." behind it cancel anywhere in a path |
| PathLaws.CleaningKeepsThePlace | internal/coordination/service.go:351-366 | a cleaned path names the place that the raw components lead to, read from the right with a debt of ".." |
| PathLaws.AcceptedLocatorNamesThePlace | internal/coordination/service.go:351-366 | a locator is accepted if and only if it is relative, stays inside and below the root and holds no NUL; its components are then those of the place it leads to |
| PathLaws.NormalizeOneMeans | internal/coordination/service.go:337-371 | a scope is accepted if and only if its kind and mode are known names, whatever their case and surrounding space, and its locator is accepted and at most 4096 bytes long; no mode stands for exclusive |
| PathLaws.NormalizeScopesAccepts | internal/coordination/service.go:333-375 | a request is accepted if and only if it holds 1 to 50 scopes, each of them accepted |
| Text.Utf8LengthCounts | internal/coordination/service.go:351-366 | the length that is limited is that of the UTF-8 encoding |
| Coordination.PostgresRepository.LoadScopeOverlaps | internal/coordination/postgres_repository.go:545-615 | the nested loops give the overlaps of every requested scope with every visible claim |
| Coordination.OverlapsAreExact | internal/coordination/postgres_repository.go:583-613 | an overlap is answered if and only if it pairs a requested scope with a visible claim that overlaps it |
| Coordination.ReservingRowsInOrder | internal/coordination/postgres_repository.go:555-577 | the query's rows come in creation order, ties by identifier |
| Admission.OverlapsAreTruthful | internal/coordination/postgres_repository.go:583-613 | every answered overlap pairs a requested scope with a live claim that shares a path with it, shows the claim and its intent as they are, and blocks if and only if one of the two is exclusive |
| Admission.OverlapsAreComplete | internal/coordination/postgres_repository.go:583-613 | every live claim that shares a path with a requested scope is answered |
| Admission.BlockedIfContended | internal/coordination/postgres_repository.go:647-654 | an overlap blocks if and only if some live claim and some requested scope share a path and one of them is exclusive |
| Coordination.PostgresRepository.HasBlockingOverlap | internal/coordination/postgres_repository.go:647-654 | answers whether any overlap blocks |
| Coordination.PostgresRepository.Start | internal/coordination/postgres_repository.go:56-182 | work.start commits intent, claims, event, outbox row and completed record together, or changes nothing |
| Coordination.PostgresRepository.StartWork | internal/coordination/service.go:182-234 | scopes are normalised before any table is read; a bad one changes nothing |
| Coordination.StartDelta | internal/coordination/postgres_repository.go:56-182 | a retry finds its record and writes nothing; a fresh start adds one active intent and one 60-second claim per scope, touches no older claim, and logs override exactly when an overlap blocks |
| Admission.FreshStart | internal/coordination/postgres_repository.go:95-131 | with a free key, an authorised session and a repository, work.start is refused with the overlaps if and only if the request is contended and asks for no override, and otherwise succeeds exactly when it asks for each resource in one mode; shared reservations coexist |
| Coordination.ClaimsNeedOneMode | internal/coordination/postgres_repository.go:142-155 | the claims of a new intent can be inserted if and only if no resource is asked for in two modes |
| Guarantees.TwoModesAreRefused | internal/platform/migrations/sql/000001_core.sql:633-641 | in no reachable state does a fresh work.start succeed that asks for one resource in two modes |
| Coordination.PostgresRepository.Attach | internal/coordination/postgres_repository.go:184-277 | workspace.attach commits one ready worktree with its event and record, or changes nothing |
| Coordination.PostgresRepository.UpdateStatus | internal/coordination/postgres_repository.go:279-411 | intent.status commits the row, the released claims, the frozen or archived worktrees, the event and the record, or changes nothing |
| AgentSessions.PostgresRepository.Start | internal/agentsession/postgres_repository.go:150-255 | a new session expires its predecessors of the same agent and node |
| AgentSessions.PostgresRepository.Heartbeat | internal/agentsession/postgres_repository.go:257-337 | renews the session and its active claims whatever their expiry, as far as the constraints allow |
| AgentSessions.PostgresRepository.Close | internal/agentsession/postgres_repository.go:339-410 | closes the session and releases its claims, or changes nothing |
| AgentSessions.CloseNeedsRunningLease | internal/agentsession/postgres_repository.go:339-410 | for an open session, closing succeeds if and only if its lease has not lapsed |
| AgentSessions.PostgresRepository.RevokeSponsor | internal/useradmin/postgres_repository.go:775-810 | a suspended account loses its open sessions and keeps their claims until they lapse |
| AgentSessions.RevocationMeans | internal/useradmin/postgres_repository.go:795-808 | no open session of the sponsor is left, no other session and no claim has changed, and the time order of sessions still holds |
| AgentSessions.PostgresRepository.Observe | internal/agentsession/postgres_observation.go:21-228 | upserts the observation, logs an event only for a noteworthy change, and completes the record, or changes nothing |
| AgentSessions.NotesMeanWhatTheySay | internal/agentsession/postgres_observation.go:120-200 | content is noted exactly when a dirty state differs from the last one seen; a moved head is noted as the worktree's own or as external, and never on a first observation |
| AgentSessions.SameObservationIsSilent | internal/agentsession/postgres_observation.go:120-200 | the same state reported twice in a row is noted at most once |
| Handoffs.PostgresRepository.OfferHandoff | internal/coordination/handoff_postgres.go:14-173 | expires the lapsed offer, refuses a second open one, links the records, inserts and logs, or changes nothing |
| Handoffs.PostgresRepository.UpdateHandoffStatus | internal/coordination/handoff_postgres.go:206-315 | accepts or withdraws an open handoff before its deadline, or changes nothing |
| Handoffs.LinkRecordsExact | internal/coordination/handoff_postgres.go:136-155 | linking succeeds if and only if all records are known and none is repeated, and keeps their order |
| ContextPacks.PostgresRepository.Create | internal/contextpack/postgres_repository.go:26-165 | stores the pack with the current project sequence as cursor, and its own event behind it, or changes nothing |
| RepositorySync.PostgresRepository.Apply | internal/repositorysync/postgres_repository.go:91-238 | applies a snapshot to provider state, repository and project together, or changes nothing |
| RepositorySync.PostgresRepository.RecordFailure | internal/repositorysync/postgres_repository.go:240-336 | records a failed attempt, with an event only when something changed, or changes nothing |
| RepositorySync.Service.Sync | internal/repositorysync/service.go:176-218 | a stored answer spares the fetch, a failed fetch is recorded, a fetched snapshot is applied |
| ProjectRepositories.PostgresRepository.Attach | internal/projectrepo/postgres_repository.go:94-233 | links or inserts the repository, switches the primary one, and logs it, or changes nothing |
| Projects.Create | internal/projects/postgres_repository.go:27-183 | the first tables of a project: counter and sequence 1, one event, one outbox row |
| Server.Service.Handle | internal/coordination/postgres_repository.go:56-411 | every command, through its repository, is one step of the run model |
| Admission.CommandsSucceedExactly | internal/coordination/postgres_repository.go:673-698 | in every reachable state each of the fourteen commands succeeds if and only if the rows allow it: the session is active, unexpired and the principal's own unless allowAll, its agent is responsible for the intent, the version and the transition fit, a withdrawal is the offerer's and an acceptance another's, or the key already holds this digest |
| Admission.RefusedFor | internal/coordination/postgres_repository.go:279-328 | for status changes, answers, context packs and snapshots, the error of every command that is not admitted |
| Admission.ActingRefusedFor | internal/coordination/postgres_repository.go:673-698 | a session that may not act is Forbidden, a reused key with another digest a conflict, a second live worktree or open offer refused as such |
| Admission.FindsTheChosen | internal/projectrepo/postgres_repository.go:136-148 | the row to link is one in use under the GitHub number or the lower-case name, one with a number before those without, then the oldest |
| Rows.SuccessWrites | internal/coordination/postgres_repository.go:56-411 | in every reachable state a first success writes exactly the rows stated for its command, field by field, touches no other table, and stores the answer, which shows those rows |
| Rows.StartedRows | internal/coordination/postgres_repository.go:119-181 | work.start: the intent, one 60-second claim for each scope, and an event with the claims, the exact overlaps, and an override exactly when the request is contended |
| Rows.SessionStartRows | internal/agentsession/postgres_repository.go:206-255 | every open session of the same agent on the same node expires, every other session keeps its row, and the new one is active for 45 seconds |
| Rows.AnswerRows | internal/coordination/handoff_postgres.go:263-315 | an answer changes one row: status, who accepted, when, and version, and is answered with that row |
| Rows.SaysWhetherItChanges | internal/repositorysync/postgres_repository.go:149-156 | a snapshot is reported as a change if and only if the stored state, the branch or, for the primary repository, the project's revision differs from it |
| Frames.Outcomes | internal/coordination/postgres_repository.go:731-800 | a command that succeeds either repeats its stored answer and writes nothing, or finds its key free and writes; one without a record always writes |
| Runs.ReachableIsSound | internal/coordination/postgres_repository.go:56-860 | every state of every run satisfies the invariant |
| Guarantees.FinishedWorkStaysFinished | internal/coordination/postgres_repository.go:330-388 | once completed, cancelled or abandoned, an intent keeps its row for ever, has no active claim, and all its worktrees are archived |
| Guarantees.CompletedOnlyFromSubmitted | internal/coordination/postgres_repository.go:656-667 | an intent that is completed was submitted, or completed, one step before |
| Guarantees.TerminalFilterIsRedundant | internal/coordination/postgres_repository.go:564-577 | in every reachable state the overlap query would answer the same without its filter on the intent's status |
| Work.StatusChangeReaches | internal/coordination/postgres_repository.go:330-388 | submitting freezes the intent's worktrees and keeps its claims, finishing releases and archives, any other move leaves both alone, and no move touches another intent's work |
| Work.CloseReleasesItsClaims | internal/agentsession/postgres_repository.go:388-405 | closing a session releases every claim it holds and changes no other session or claim |
| Guarantees.OneWorktreePerIntent | internal/coordination/postgres_repository.go:200-255 | an intent has at most one worktree row over its whole life |
| Guarantees.ExactlyOnce | internal/coordination/postgres_repository.go:731-800 | when a command of the same type and key succeeds again, at any later step, it has the same digest, gets the first stored result and leaves every table as it was |
| Guarantees.RetryRepeats | internal/coordination/postgres_repository.go:754-770 | a success under a recorded key is that record's answer |
| Guarantees.CommandIncompleteIsUnreachable | internal/coordination/postgres_repository.go:766-770 | no command in any reachable state is answered with ErrCommandIncomplete |
| Guarantees.LogReplaysToTheTables | internal/coordination/postgres_repository.go:802-860 | in every reachable state sequences and outbox are 1 to n, versions within every aggregate strictly increase, folding the log gives back primary repository, canonical revision and every status with its version, and versions of intents, handoffs and provider states are 1, 2, ... up to the row's |
| History.ReplayedVersionsAreDense | internal/coordination/postgres_repository.go:802-860 | any log that can be replayed numbers these aggregates without a gap |
| History.PackedIsPlaced | internal/contextpack/postgres_repository.go:88-96 | a pack's cursor is exactly one below its own event |
| Guarantees.AnswersAreFinal | internal/coordination/handoff_postgres.go:263-292 | accepted, withdrawn and expired handoffs keep their row in every later state |
| Guarantees.HandoffProtocolHolds | internal/coordination/handoff_postgres.go:68-135 | at most one stored open offer per intent; an accepted handoff names an actor other than its offerer and was accepted before its deadline |
| Guarantees.HandoffsTouchNothingElse | internal/coordination/handoff_postgres.go:206-315 | no handoff command changes a claim, worktree, session or intent |
| Guarantees.ProjectFollowsPrimary | internal/repositorysync/postgres_repository.go:195-212 | for any mix of syncs, failures and primary switches, a synced primary repository and the project show the same revision |
| Guarantees.RepositoriesStayDistinct | internal/projectrepo/postgres_repository.go:132-192 | in every reachable state no two repositories share a slug and no two in use share a GitHub number |
| Canonical.ByLinking | internal/projectrepo/postgres_repository.go:194-215 | a primary switch keeps project and primary repository in agreement, bringing a revision along only from a synced state |
| Canonical.FailureKeepsCanonical | internal/repositorysync/postgres_repository.go:278-331 | a failure never moves the project's revision, the last success or the state's revision |
| Canonical.ReapplyingIsSilent | internal/repositorysync/postgres_repository.go:145-226 | the same snapshot again, under any key and at any time, appends no event and bumps no version |
| Exclusion.ExclusionOverRuns | internal/agentsession/postgres_repository.go:257-337 | over every timed run exclusion holds after every step if and only if every accepted heartbeat revives safely |
| Exclusion.TimelyHeartbeatsKeepExclusion | internal/coordination/postgres_repository.go:56-182 | if heartbeats renew only unexpired claims, any two live overlapping claims of different intents, one exclusive, are there because the later intent's event records the override and lists the earlier claim |
| Exclusion.ExclusionByHeartbeat | internal/agentsession/postgres_repository.go:318-332 | one heartbeat keeps exclusion if and only if it revives safely |
| Exclusion.GrantedKnowingly | internal/coordination/postgres_repository.go:109-176 | a claim granted beside a live conflicting one is granted with an event that says so |
| Exclusion.QuerySees | internal/coordination/postgres_repository.go:545-615 | the overlap query misses no live claim that conflicts with a requested scope |
| LateHeartbeat.LateHeartbeatBreaksExclusion | internal/agentsession/postgres_repository.go:321-332 | a run without lag or override that ends with two live exclusive reservations of the whole repository |
| Leases.MarginOverRuns | internal/agentsession/postgres_repository.go:16-19 | active claims outlive active sessions by 15 seconds in all states if and only if no accepted reservation is dated before its session's last sign of life |
| Leases.AuthorisedSessionHoldsItsClaims | internal/coordination/postgres_repository.go:673-698 | with timestamps in order, a session that passes authorisation holds all its active claims unexpired, with more than 15 seconds to spare |
| Leases.MarginByStart | internal/coordination/postgres_repository.go:142-155 | one reservation keeps the margin if and only if it is not dated before the session was last seen |
| Leases.SessionsThatAreOverStayOver | internal/agentsession/postgres_repository.go:206-218 | a session that is closed or replaced never has a claim renewed or granted again |
| Leases.OneOpenSessionPerNode | internal/agentsession/postgres_repository.go:206-218 | in every reachable state an agent has at most one open session on a node |
| LazyExpiry.SameCommandsSucceed | internal/coordination/handoff_postgres.go:68-93 | over every run, the lazy store and one that expires offers the instant they lapse let the same offers, acceptances and withdrawals succeed throughout if and only if no command that would be accepted straddles its deadline |
| LazyExpiry.SameStatusSeen | internal/coordination/handoff_postgres.go:317-340 | and after such a run they show every handoff with the same status, now and at every later time |
| LazyExpiry.LazyIsEagerWithoutLag | internal/coordination/handoff_postgres.go:68-93 | when every command is dated at the time it takes effect, the same commands succeed and the same statuses are seen |
| LazyExpiry.AnswersAgree | internal/coordination/handoff_postgres.go:263-292 | one answer succeeds in both stores or in neither, except exactly when its key is free, the lazy store's row and session allow it, and its lag straddles the deadline: then it succeeds in the lazy one only |
| LazyExpiry.OffersAgree | internal/coordination/handoff_postgres.go:68-135 | one offer likewise, except exactly when its key is free, it meets every other condition, and its lag straddles the deadline of the open offer: then it succeeds in the eager one only |
| LaggingHandoffs.LazyAcceptsLate | internal/coordination/handoff_postgres.go:263-292 | an acceptance that began a second before the deadline and takes effect a second after it succeeds lazily and is refused eagerly |
| LaggingHandoffs.EagerOffersEarly | internal/coordination/handoff_postgres.go:68-135 | a second offer with the same lag is refused lazily and succeeds eagerly |
| LazyExpiry.ExpiryClearsTheWay | internal/coordination/handoff_postgres.go:68-93 | after the lazy expiry an open offer is left if and only if one is still before its deadline |
| SyncInterleaving.OneSnapshotPerKey | internal/repositorysync/service.go:199-217 | any interleaving of look-ups, fetches, failures, applications and other commands applies at most one snapshot under a key, exactly one once a caller succeeds, and gives all successful callers the one stored result, which reports that snapshot |
| SyncInterleaving.ApplyKeepsCoherence | internal/repositorysync/postgres_repository.go:338-380 | the first caller to apply writes, every later one repeats |
| Slugs.RepositorySlugIsWellFormed | internal/projectrepo/postgres_repository.go:382-391 | every slug is at most 63 characters of alphanumeric runs joined by single hyphens |
| Slugs.RepositorySlugMeans | internal/projectrepo/postgres_repository.go:382-391 | a slug is the runs of letters and digits of the name, in lower case and joined by single hyphens, cut to 63 characters and not behind a hyphen; "repository" if there is no run |
| Slugs.CandidateMeans | internal/projectrepo/postgres_repository.go:164-180 | a candidate is the longest part of the base that fits before its suffix, without a hyphen at the cut |
| Slugs.FreshSlugMeans | internal/projectrepo/postgres_repository.go:164-180 | the base if it is free, else the first free candidate from 2 on |
| Slugs.CandidatesAreDistinct | internal/projectrepo/postgres_repository.go:164-180 | suffixed candidates are pairwise distinct |
| Slugs.Allocate | internal/projectrepo/postgres_repository.go:164-180 | the probing loop stops, at the base or the first free suffixed candidate, after so many look-ups |
| Slugs.SlugAllocation | internal/projectrepo/postgres_repository.go:164-180 | with n slugs taken, n below 10^60, the loop stops within n + 1 suffixed candidates at a free and well-formed slug |
| Slugs.ProbesStayWithinBound | internal/projectrepo/postgres_repository.go:164-180 | whatever is taken, one look-up more than slugs taken is enough in all, if and only if the slug is none of its own suffixed candidates |
| Slugs.OwnCandidateByForm | internal/projectrepo/postgres_repository.go:164-180 | a slug is its own candidate exactly when it has 62 or 63 characters and ends with a hyphen and a number from 2 on |
| Slugs.OneProbeTooMany | internal/projectrepo/postgres_repository.go:164-180 | a slug that is its own k-th candidate takes k + 1 look-ups with the first k - 1 candidates taken |
| Slugs.BaseCanBeItsOwnCandidate | internal/projectrepo/postgres_repository.go:164-180 | 61 characters with "-2" behind them are their own first candidate, and one slug taken then makes three look-ups |
| Knowledge.PostgresRepository.CreateRecord | internal/knowledge/postgres_repository.go:108-181 | stores a proposed record with its evidence, event and completed record, or changes nothing |
| Knowledge.PostgresRepository.UpdateRecordStatus | internal/knowledge/postgres_repository.go:245-347 | changes a status along the transition table, supersedes only by another accepted record, or changes nothing |
| Knowledge.PostgresRepository.Normalize | internal/knowledge/service.go:311-329 | the pass with its map of seen keys gives one entry per resource and relation |
| Knowledge.EvidenceNormalForm | internal/knowledge/service.go:311-329 | no two entries share resource and relation, every value asked for is covered, and each entry is the first one asked for with its key |
| KnowledgeRules.EvidenceMeans | internal/knowledge/service.go:311-329 | stored evidence has relations in lower case, "supports" for a blank one, trimmed notes, and the first value asked for of each resource and relation |
| KnowledgeRules.CreateExactly | internal/knowledge/postgres_repository.go:108-181 | creating succeeds if and only if the window and relations are sensible and the key repeats or is free with known resources; a retry writes nothing, a first success exactly the proposed record, its event and its stored answer |
| KnowledgeRules.ChangeExactly | internal/knowledge/postgres_repository.go:245-347 | a status change succeeds if and only if it is one of the ten moves at the version seen, with an accepted superseder other than the record exactly when it supersedes, and a window that holds, or repeats; and it writes exactly that row |
| KnowledgeRules.ChangeRefusedFor | internal/knowledge/postgres_repository.go:263-316 | the error of every change that is refused, in order |
| Supersession.SupersessionNeverCycles | internal/knowledge/postgres_repository.go:263-316 | with atomic commands, in every reachable state the edges are acyclic and a record has one exactly when it is superseded |
| Supersession.FollowingEdgesEnds | internal/knowledge/postgres_repository.go:263-316 | following the edges from any record ends at a record that is not superseded |
| Supersession.EdgeKeepsAcyclic | internal/knowledge/postgres_repository.go:286-316 | a new edge keeps the graph acyclic if and only if its source cannot be reached from its target |
| Supersession.ExactlyOnce | internal/knowledge/postgres_repository.go:434-504 | a second success under a key returns the first stored record and writes nothing |
| SupersessionRace.NeverMutual | internal/platform/migrations/sql/000009_workspace_knowledge.sql:135-138 | however status changes interleave, no record supersedes itself and no two supersede each other |
| SupersessionRace.AcyclicOverInterleavings | internal/knowledge/postgres_repository.go:286-316 | over every interleaving no circle is closed if and only if every write finds its record out of reach of the superseding one at that moment |
| SupersessionRace.WriteKeepsAcyclic | internal/knowledge/postgres_repository.go:286-316 | the same for one write |
| SupersessionRace.ThreeCanCloseACircle | internal/knowledge/postgres_repository.go:286-300 | a run from an empty library in which three interleaved status changes leave a circle of three |
| EventStream.ReadSSE | desktop/stream.go:268-314 | the scan loop computes the reader's fold over the lines, with its final flush |
| EventStream.OneConnection | desktop/stream.go:268-314 | what one connection carries, cut at any byte: exactly the events whose data line has arrived are emitted, in order without gap or repetition, and the last one is the new cursor |
| EventStream.FramePrefix | desktop/stream.go:268-314 | a frame cut anywhere is emitted whole with its id as cursor if its data line is all there, and otherwise leaves no trace |
| EventStream.RunProjectEventStream | desktop/stream.go:96-138 | over any connections, each cut anywhere, the loop emits exactly the events that have arrived after the initial cursor, each once and in order, and its cursor is that of the last one |
| EventStream.EveryConnectionDelivers | desktop/stream.go:96-138 | a connection moves the loop past every event received whole, and one that is not cut past all that it served, and the loop never falls back |
| EventStream.NothingIsLost | desktop/stream.go:96-138 | once one connection is not cut and has room for what is left, every event of the log has been emitted, whatever was cut before |
| EventStream.EmittedOnce | desktop/stream.go:222-266 | no id is emitted twice, and the cursor is the id of the last event emitted |
| EventStream.ParsedCursor | internal/transport/httpapi/httpapi.go:2515-2525 | the server reads back the sequence that the cursor stands for |
| EventStream.WholeFrame | internal/transport/httpapi/httpapi.go:2180-2196 | a whole frame as the server writes it emits its event and moves the cursor there |
| EventStream.EmittedWithoutBlankLine | desktop/stream.go:310-313 | an event is emitted at the end of the stream even without its blank line |
| EventStream.IdIsNotSticky | desktop/stream.go:274-289 | an event without an id is emitted with an empty one and leaves the cursor |
| StreamRules.LinesMean | desktop/stream.go:291-309 | whoever wrote the lines, with or without a space behind the colon, comments, unknown fields and carriage returns: the last proper id counts, the data lines pile up, all else leaves no trace |
| StreamRules.BlockMeans | desktop/stream.go:274-309 | at a blank line the data joined by newlines are emitted with that id if there are any and they are valid JSON, the cursor moves to the id if there is one, and the next block starts afresh |
| LocalBinding.Checkout.EnsureLocalConfig | internal/localproject/init.go:185-249 | writes a server-only configuration where there is none, and otherwise nothing |
| LocalBinding.Checkout.EnsureNodeIdentityFor | internal/localproject/runtime.go:58-110 | keeps, migrates or replaces the identity, and leaves the file alone on error |
| LocalBinding.Checkout.EnsureNodeIdentity | internal/localproject/runtime.go:28-40 | the identity for the server of the loaded binding |
| LocalBinding.Checkout.Reconcile | internal/localproject/runtime.go:42-56 | brings only an identity that is there in line with the server |
| LocalBinding.Checkout.Bind | internal/localproject/binding.go:59-163 | the configuration first, then the identity, and nothing when the request is refused |
| BindingRules.UuidMeans | internal/localproject/project.go:206-226 | the test by positions accepts exactly five groups of hexadecimal digits, 8-4-4-4-12 |
| BindingRules.CompleteExactly | internal/localproject/binding.go:268-298 | a version 2 configuration is complete, server-only or refused, with the exact condition of each |
| BindingRules.LoadExactly | internal/localproject/binding.go:213-266 | a binding can be used if and only if it is a bare version 1 binding or a complete version 2 one for the remote the checkout has now |
| BindingRules.EnsureExactly | internal/localproject/runtime.go:58-110 | ensuring fails on unreadable identities only, names the server asked for, and keeps the key exactly for the same server or a version 1 identity that is not rotated |
| BindingRules.PlanExactly | internal/localproject/binding.go:71-157 | binding is accepted if and only if the request is well formed and the configuration may be overwritten; it keeps one that says the same, and rotates the key exactly when the server changes |
| BindingRules.BindRefusedFor | internal/localproject/binding.go:91-143 | the error of a request without Rebind that contradicts the configuration |
| BindingRuns.CompleteBindingNeverChanges | internal/localproject/binding.go:100-143 | without Rebind a complete binding never changes, whatever runs and crashes |
| BindingRuns.WrittenConfigs | internal/localproject/binding.go:144-157 | every configuration that is written is complete or holds the server only |
| BindingRuns.KeysOverRuns | internal/localproject/runtime.go:78-101 | however processes interleave and crash, no key is ever in use with two servers if and only if every migration of a version 1 identity is for the only server its key is in use with at that moment |
| BindingRuns.KeysByStep | internal/localproject/runtime.go:89-95 | the same for one step of any process |
| BindingRuns.NoKeyServesTwo | internal/localproject/runtime.go:58-110 | from an absent or version 2 identity, or a version 1 identity whose key is unused, no key is ever in use with two servers |
| BindingRuns.EnsuredForTheBoundServer | internal/localproject/runtime.go:28-40 | what EnsureNodeIdentity returns is for the server it loaded and is what the file then holds; whatever others do in between, it is for the server the checkout is bound to by then if and only if no configuration was written or the last one names the same server |
| BindingRuns.CrashIsRepaired | internal/localproject/runtime.go:79-88 | after a crash between the two writes the next use gives the identity that the interrupted process would have given |
| BindingRuns.RebindReachesLegacy | internal/localproject/binding.go:85-157 | rebinding a bound checkout with a version 1 identity leaves the new configuration beside the identity not yet rotated |
| BindingRuns.LegacyKeyCanServeTwo | internal/localproject/runtime.go:89-95 | from such a checkout, ensuring the identity between the two writes leaves the key with two servers, with and without a crash; left alone, binding replaces the key |
| CodexConfig.UpdateIsIdempotent | internal/agentconfig/codex.go:147-204 | updating twice with the same arguments equals updating once, given paths without a marker |
| CodexConfig.LaterUpdateOverrides | internal/agentconfig/codex.go:147-194 | a second update succeeds if and only if the first one's paths hold no marker, and then gives what it would have given on the original text |
| CodexConfig.UpdateKeepsOutside | internal/agentconfig/codex.go:147-194 | all bytes outside the block and its line ending survive; a first block adds its separator only |
| CodexConfig.BlockIsFound | internal/agentconfig/codex.go:172-194 | between two texts without markers the block is found, exactly |
| CodexConfig.HitsAcrossSeam | internal/agentconfig/codex.go:172-194 | no marker straddles the splice points |
| CodexConfig.CountIsHits | internal/agentconfig/codex.go:172-194 | counting without overlaps finds every occurrence of a marker |
| CodexConfig.BlockLines | internal/agentconfig/codex.go:196-204 | the block reads, line by line: marker, note, table header, the command, its arguments, the working directory, marker |
| CodexConfig.PactTableIsHeader | internal/agentconfig/codex.go:22 | the pattern matches exactly the lines that are a header of mcp_servers.pact, bare or quoted, with blanks between its parts and an optional comment |
| CodexRules.RangeExactly | internal/agentconfig/codex.go:172-194 | nothing is found exactly where no marker stands, a block exactly from the only start marker to the line ending behind the only end marker after it, and every other text is malformed |
| CodexRules.FirstBlock | internal/agentconfig/codex.go:147-170 | without a marker, an update fails if and only if some line defines the table, and otherwise appends the block behind an empty line |
| CodexRules.ReplacedBlock | internal/agentconfig/codex.go:147-170 | with a block, an update fails if and only if the text around it defines the table, and otherwise puts the new block in its place |
| CodexRules.OtherwiseMalformed | internal/agentconfig/codex.go:172-194 | any other arrangement of markers is refused |
| CodexFiles.Checkout.EnableCodex | internal/agentconfig/codex.go:38-99 | writes nothing when the update fails or changes nothing, excludes a file it creates, and reports what it created, changed and newly excluded |
| CodexFiles.Checkout.EnsureLocalExclude | internal/agentconfig/codex.go:206-237 | appends the entry exactly when no line is the entry |
| CodexFiles.ExcludingIsIdempotent | internal/agentconfig/codex.go:206-237 | afterwards the entry is listed, and excluding again changes nothing |
| CodexFiles.ExcludedLines | internal/agentconfig/codex.go:206-237 | the lines of the exclude file stay as they are if one is the entry, and are followed by an empty line, the note and the entry if not |
| CodexFiles.EnableTwice | internal/agentconfig/codex.go:38-99 | enabling again with the same paths writes nothing |

## Left out

- HTTP transport, authentication, GitHub and Git calls, the Wails desktop, command lines and MCP tools: input and output around the core.
- Read-only listings, overviews, access rosters, full-text search and the compilation of a workspace context: projections without a property that spans operations.
- Validation of field lengths and identifiers of server requests, trimming and compacting of text fields, and the digest of a request: the digest is a parameter.
- Several organizations and projects side by side: every command and constraint is scoped to one, and the model holds one.
- Enrollments, nodes, resource references, ended-at and updated-at columns: written beside the rows of the model and never read by its decisions.
- CheckScopes and the loop over all repositories of a scheduled sync: the first answers the overlap query alone, and each turn of the second is one application or one failure of the model.
- Knowledge resources, rooms and workspaces: the set of known resources and records is a parameter of the commands that need it.
- Archiving a project or losing a repository: no command in the modelled packages does it, though all commands check for it.
- Scanner buffer limits and the frame size limit of the event stream: lines are as long as they are.
- Atomic file replacement, file modes and lock files: a write is one step and a lock admits one process.
- Server URLs and Git remotes: taken as normalised, or as not normalisable.
- ProjectRepositories.PostgresRepository.Attach: remote URLs that another project of the organization already uses are refused by the schema, and the model holds one project; the query for an existing repository leaves ties open when several unlinked rows match; the model takes the oldest.
- SupersessionRace.NeverMutual: a write and its commit are one step, so lock waits that end in a deadlock abort appear as a write that is not yet possible.
- Slugs.Allocate: a suffix text longer than 63 characters, which no database can need, is cut to no room instead of failing.
- LazyExpiry.SameStatusSeen: only the status is compared; responded_at, version and the error chosen may differ.
- EventStream.RunProjectEventStream: the delays between attempts and the messages about the connection's status are not modelled.

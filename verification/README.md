# hook-service: a verified model

hook-service decides, while an OAuth token is being issued, which groups and which tenant go
into the token and whether the token is issued at all. Its state is three SQL tables, an OpenFGA
tuple store and a bounded worker pool. This project models the parts where these pieces interlock
and proves what holds over every run, every interleaving and every failure pattern.

`dafny verify dfyconfig.toml` checks everything.

## Layout

| file | contents |
|---|---|
| `HookTypes.dfy`, `ForkJoin.dfy` | the hook's values; the worker pool and all in-flight `ProcessRequest` calls as one step relation |
| `ForkJoinInvariant.dfy`, `ForkJoinTheorems.dfy`, `ForkJoinPool.dfy`, `ForkJoinProgress.dfy`, `ForkJoinFailOpen.dfy` | its inductive invariant, safety theorems, what the pool takes and answers, absence of deadlock and a bound on runs, and the schedules in which a shutdown and a panic fail open |
| `HookService.dfy`, `LocalClient.dfy`, `TokenIssue.dfy`, `Claims.dfy` | group collection and authorization; the groups client over the tables; the end-to-end theorems; merging claims into the token |
| `Base64.dfy`, `OpenFga.dfy`, `Authorizer.dfy` | object names, the meaning of a check, and the tuple store with its paginated deletions |
| `LikePattern.dfy`, `Schema.dfy`, `RowByRow.dfy`, `Storage.dfy`, `Ordering.dfy`, `Streams.dfy` | prefix patterns, the tables with their constraints, the statements row by row, the storage methods, ORDER BY, row streams |
| `TwoStores.dfy`, `TwoStoreRuns.dfy`, `Decisions.dfy`, `StoreDrift.dfy` | requests that change the database and then the tuple store, under every fate of their transaction; all runs of them; the hook's decision in every state; the runs in which the stores drift apart |
| `Overlap.dfy` | the same requests overlapping freely, with read-committed visibility and row locks |
| `Reconciliation.dfy`, `SyncProgress.dfy`, `Importer.dfy`, `ImportRun.dfy` | `Importer.Sync` and `Importer.Run` |
| `ReplicaLag.dfy`, `Transactions.dfy`, `DbClient.dfy` | the lag monitor, the lazily begun transaction, statement routing and the request middleware |
| `Collections.dfy` | options, distinctness, deduplication |

## Conventions

- Calls that leave the process are numbered, and a function `outage` (`refuses`, `beginFails` and
  `commitFails` in `DbClient`) says which of them fail. It is arbitrary, so a contract that
  holds for every `outage` holds for every failure pattern. A refusal for a reason outside the
  model (a value too long for its column, deleting an absent tuple) counts as such a failure.
- Go strings that are encoded are byte strings (`GoString`); group ids are non-empty ones. New
  uuids are ids that were never used before (`Db.used`).
- Goroutines are modelled by interleaving their steps; a handler is the sequence of actions it
  performs, so adaptive handlers are covered by quantifying over all sequences.

## Assumptions on the outside

- Tuple store: a failed call has no effect; continuation tokens are key cursors; a filter whose
  id part is empty matches every id of that type; only this service writes tuples; its check
  follows the authorization model (`Faithful`).
- PostgreSQL: a failed statement changes nothing and aborts its transaction; committing an
  aborted transaction fails; a failed commit leaves no trace; a statement outside a transaction is
  visible at once, one inside a transaction only after the commit; a collation is a total order.
- In `TwoStores` and what builds on it, requests that write grants do not overlap one another,
  while hook requests may fall between their calls (`Decisions.Glimpse`). Nothing in the code keeps
  writers apart: an addition and a removal of the same grant can overlap, both answer 200 and commit,
  and leave a row without its tuple (`Overlap.OverlapCanLoseTuple`). `Overlap` drops the assumption,
  for transactions that begin and commit, with the visibility and row locks of read committed.

## Results that differ from what one might expect

- A shutdown and a panic of the tenant job can fail open: a lost tenant result counts as "member"
  (`ForkJoinFailOpen.ShutdownCanFailOpen`, `ForkJoinFailOpen.PanicCanFailOpen`);
  `ForkJoinTheorems.SuccessExactly` is the exact condition.
- A request is all-or-nothing exactly when its first begin succeeds
  (`Transactions.AtomicExactlyWhenBegun`); otherwise its first statements are committed one by one.
- Tuples of live groups are not always backed by rows. An addition whose commit fails after the
  handler has answered (`StoreDrift.CommitFailureStrands`), and a removal whose begin and whose tuple
  call both fail (`StoreDrift.FailedBeginStrands`), leave a tuple on which the hook lets users in.
  `TwoStoreRuns.SafeRunsExactly` says exactly which runs are safe, and
  `TokenIssue.NoTokenWithoutGrant` is stated under the condition that excludes those events.
- Nor do rows always have their tuples. An addition that loses its begin and its tuple call
  (`StoreDrift.FailedBeginLosesTuple`), a removal that succeeds and is not committed, and a bulk removal
  that fails half way leave a row that lets nobody in; `TwoStoreRuns.CompleteRunsExactly` says exactly
  which runs keep all tuples, and `Decisions.PlainRunsExactly` exactly when the check is the plain join.
- A lag limit of MaxInt64 routes reads to a replica nobody has measured
  (`ReplicaLag.LimitMustBeFinite`).
- A user without groups keeps an old `groups` claim (`Claims.OldGroupsClaimStays`,
  `Claims.FormerAdminKeepsClaim`).
- `Importer.Run` reports no storage failure (`ImportRun.Import.Run`).
- `docs/adr/003-cli-user-group-sync.md:41` describes a lexicographic range and line 78 says that
  OpenFGA is not cleaned up; the code uses an escaped LIKE and deletes tuples, and so does the model.

## Model

| member | source | states |
|---|---|---|
| `ForkJoinInvariant.ReachableInv` | pkg/hooks/service.go:67-158 | the inductive invariant (places of jobs, lanes, program counters, results) holds after every run from the initial state |
| `ForkJoinTheorems.JobsAreConserved` | internal/pool/pool.go:38-88 | in every reachable state an accepted job is in exactly one of queue, one worker's hands, finished; it delivers at most once, a finished one delivered nothing if and only if it was dropped after a shutdown or panicked, and the queue never exceeds twice the workers |
| `ForkJoinTheorems.ResultsCarryTheirOwnId` | internal/pool/pool.go:72-88 | a result in a request's channel carries the id, kind and value of that request's own job |
| `ForkJoinTheorems.ChannelsAreSafe` | pkg/hooks/service.go:84-121 | no send on a closed channel, no blocked send, no double close, no negative wait group, in any interleaving with shutdowns and panics |
| `ForkJoinTheorems.NoJobOutlivesItsRequest` | pkg/hooks/service.go:96-126 | when `ProcessRequest` has returned, all jobs it had accepted are finished and nobody holds them |
| `ForkJoinTheorems.LazyTransactionIsExclusive` | pkg/hooks/service.go:98-126 | at most one worker runs a request's group fetch, and meanwhile the request has not returned and uses no database |
| `ForkJoinTheorems.OutcomeIsDetermined` | pkg/hooks/service.go:84-157 | the returned outcome is a function of the input and of whether each job was refused, lost or delivered, whatever the schedule |
| `ForkJoinTheorems.LossHasACause` | internal/pool/pool.go:48-88 | a returned request's result went missing if and only if that very job was dropped after a shutdown or its command panicked |
| `ForkJoinTheorems.ScheduleIndependence` | pkg/hooks/service.go:67-158 | a request whose own jobs were accepted, not dropped and did not panic returns in every interleaving what the sequential function returns, with its error priority |
| `ForkJoinTheorems.SuccessExactly` | pkg/hooks/service.go:123-157 | success if and only if groups arrived, authorization allowed exactly those groups, and the tenant was validated or its result lost |
| `ForkJoinTheorems.FailClosed` | pkg/hooks/service.go:134-157 | unless its own tenant job was dropped or panicked, a returned tenant was validated and the returned groups were authorized |
| `ForkJoinPool.SubmitExactly` | internal/pool/pool.go:38-46 | a submission is taken exactly while the queue holds fewer than twice the workers, and leaves no trace otherwise |
| `ForkJoinPool.RefusalMeansFull` | pkg/hooks/service.go:98-117 | a returned request without one of its jobs met, at some moment of the run, a queue of exactly twice the workers |
| `ForkJoinPool.JobsLeaveInOrder` | internal/pool/pool.go:58-66 | a worker takes the job that was accepted first |
| `ForkJoinPool.WorkersStay` | internal/pool/pool.go:48-70 | without a shutdown and without a panic no worker leaves |
| `ForkJoinPool.WorkerMoves` | internal/pool/pool.go:48-88 | what a worker can do in every reachable state and where it leads |
| `ForkJoinPool.AnswerExactly` | pkg/hooks/service.go:84-157 | what every returned request is told, case by case in the order busy, fetch, check, denial, tenant |
| `ForkJoinFailOpen.ShutdownCanFailOpen` | pkg/hooks/service.go:91-93 | a reachable state in which a non-member gets the tenant after a shutdown |
| `ForkJoinFailOpen.PanicCanFailOpen` | internal/pool/pool.go:49-56 | a reachable state without a shutdown in which a non-member gets the tenant because the tenant job panicked |
| `ForkJoinProgress.NoDeadlock` | internal/pool/pool.go:58-68 | while a worker is alive, an unanswered request always leaves some internal step enabled |
| `ForkJoinProgress.ReachableRunsAreBounded` | pkg/hooks/service.go:67-158 | from any reachable state only boundedly many steps are possible without new arrivals |
| `ForkJoinProgress.StuckMeansAnswered` | pkg/hooks/service.go:67-158 | a reachable state with a live worker and no enabled internal step has answered every request |
| `HookService.FetchUserGroups` | pkg/hooks/service.go:160-185 | succeeds exactly when every client does, and returns their groups in order |
| `HookService.ConcatInOrder` | pkg/hooks/service.go:171-179 | a further client's groups come after those of the others |
| `HookService.IdentityExactly` | pkg/hooks/users.go:16-61 | a single machine grant type makes the client the user; anyone else is looked up by the e-mail claim and checked under the subject |
| `HookService.ConcatIsUnion` | pkg/hooks/service.go:171-179 | a group is returned exactly when some client returned it |
| `LocalClient.FetchUserGroups` | pkg/hooks/local.go:26-46 | nobody has no groups; anyone else has exactly the groups of the join, in order, unless the row loop fails |
| `HookService.AuthorizeRequest` | pkg/hooks/service.go:189-242 | for any grant types but the two single machine ones, allowed if and only if the store is up and a group holds the grant for the client, and a refusal is a denial; for those two, allowed if and only if the audience is empty or the store is up and every entry is granted, and a refusal is an error |
| `HookService.AuthorizationExactly` | pkg/hooks/service.go:213-226 | the same two cases of the decision for any set of stored tuples |
| `Authorizer.GrantedAllMeansEach` | internal/openfga/client.go:301-317 | the batch fold is the conjunction over the audience |
| `TokenIssue.EveryTokenIsExplained` | pkg/hooks/service.go:67-242 | with no condition on begins, commits or timing: for every application a success asks for, a group of the user has the row, or was deleted since, or an earlier untidy event stranded its tuple, or the check fell into an addition of that very grant or a removal of it outside a transaction |
| `TokenIssue.NoTokenWithoutGrant` | pkg/hooks/service.go:67-242 | over all interleavings, shutdowns, panics and store failures, as long as no earlier addition lost its commit and no earlier removal lost both begin and tuple call, a success implies for every application asked for a group of the user with that row in `application_groups`, unless the group was deleted meanwhile; the only exceptions are checks that fall into the middle of an addition of that grant or of its removal outside a transaction |
| `TokenIssue.TokenExactlyWhenPermitted` | pkg/hooks/service.go:67-242 | undisturbed, a machine gets its token if and only if the tables join its client id with every application of the audience, anyone else if and only if they join the e-mail address of the login with the client, and in both cases the tenant has the user as member |
| `TokenIssue.WantsExactly` | pkg/hooks/service.go:213-226 | a machine asks for its audience, anyone else for the client |
| `TokenIssue.EnvironmentsExist` | pkg/hooks/local.go:26-46 | every request and every state of the stores has the environment the token theorems speak of |
| `Claims.NewHookResponse` | pkg/hooks/handlers.go:161-187 | keeps every claim, and replaces `groups` in both tokens by the same duplicate-free names when there are groups |
| `Claims.ComposeTokenResponse` | pkg/hooks/handlers.go:136-157 | keeps every claim but `groups` and `tenant_id` in both tokens; with groups, both list exactly their names, each once; with a tenant, both carry it |
| `Claims.SessionClaims` | pkg/hooks/handlers.go:137-149 | the claims a response starts from, for every shape of the session |
| `Claims.OldGroupsClaimStays` | pkg/hooks/handlers.go:174-176 | without groups an old `groups` claim stays in both tokens |
| `Claims.ComposingAgain` | pkg/hooks/handlers.go:136-187 | composing on its own output with the same context changes nothing but perhaps the order of names |
| `Claims.ResponseIsDetermined` | pkg/hooks/handlers.go:136-187 | two responses for the same request differ at most in the order of names |
| `Base64.RoundTrip` | internal/authorization/util.go:24 | decoding undoes encoding (section 4 of RFC 4648) on every byte string |
| `Base64.Alphabet` | internal/authorization/util.go:24 | only base64 digits and padding occur |
| `Base64.DigitsFollowTable1` | internal/authorization/util.go:24 | the digits are those of Table 1 of RFC 4648 in its order |
| `Base64.GroupExactly` | internal/authorization/util.go:24 | four digits spell the same 24-bit number as the three bytes, most significant first, with the padding of section 4 |
| `Base64.EncodeGroupwise` | internal/authorization/util.go:24 | groups of three bytes are encoded one after the other |
| `OpenFga.GroupNamesInjective` | internal/authorization/util.go:21-29 | group objects and member usersets determine the group id |
| `OpenFga.GroupNamesAreClean` | internal/authorization/util.go:21-25 | the encoded part never contains `#`, `:` or a space |
| `OpenFga.NamesOnTheWire` | internal/authorization/util.go:13-29 | grants and contextual memberships as they are sent |
| `OpenFga.MemberFollowsModel` | internal/authorization/authorization_model.v0.openfga:13 | membership is direct or through a group that is itself a member |
| `OpenFga.CheckFollowsModel` | internal/authorization/authorization_model.v0.openfga:24 | access is direct, through a group, or as admin of a privileged object |
| `OpenFga.CheckIsAJoin` | internal/authorization/authorization_model.v0.openfga:10-24 | over a store of grants, a check with contextual memberships allows exactly when one of the groups has a grant for the client |
| `Authorizer.TupleStore.AddAllowedAppToGroup` | internal/authorization/authorization.go:101-106 | one tuple is added, or nothing when the call fails |
| `Authorizer.TupleStore.RemoveMatching` | internal/authorization/authorization.go:145-173 | the page loop ends, removes matching tuples only, succeeds exactly when all its calls do, and then none is left |
| `Authorizer.TupleStore.RemoveAllAllowedAppsFromGroup` | internal/authorization/authorization.go:145-173 | takes tuples of that group only, and all of them on success |
| `Authorizer.TupleStore.RemoveAllAllowedGroupsForApp` | internal/authorization/authorization.go:115-143 | takes tuples of that application only (of every application for the empty id), and all of them on success |
| `Authorizer.GroupFilterExact` | internal/authorization/authorization.go:151 | the read filter selects the grants of exactly one group |
| `Authorizer.AppFilterExact` | internal/authorization/authorization.go:121 | the read filter selects the grants of exactly one application, or of all when the id is empty |
| `Authorizer.FiltersSelectGrants` | internal/authorization/authorization.go:121-151 | both filters select `can_access` tuples only |
| `Authorizer.TupleStore.CanAccess` | internal/authorization/authorization.go:76-82 | allowed exactly when one of the passed groups has a stored grant for the client |
| `Authorizer.TupleStore.BatchCanAccess` | internal/authorization/authorization.go:84-99 | allowed exactly when every client is granted to one of the groups; a denial is an error |
| `LikePattern.EscapeIsExact` | internal/storage/groups.go:398-403 | a name matches the escaped prefix followed by `%` exactly when it starts with the prefix, for all strings |
| `LikePattern.EscapedCharacters` | internal/storage/groups.go:398 | what the replacer writes for backslash, percent, underscore and any other character |
| `LikePattern.LikeFollowsTheManual` | internal/storage/groups.go:398-403 | underscore, escape and plain characters as in section 9.7.1 of the PostgreSQL documentation |
| `LikePattern.PercentFollowsTheManual` | internal/storage/groups.go:398-403 | the percent sign stands for any part of the text |
| `Schema.DeleteGroupKeepsValid` | migrations/00001_initial_schema.sql:23-56 | deleting a group cascades to its members and grants and keeps every constraint |
| `Schema.StatementsKeepValid` | migrations/00001_initial_schema.sql:7-56 | every sequence of statements, failing or not, keeps foreign keys, unique names per tenant and globally unique ids |
| `Schema.ViewsAreDual` | internal/storage/groups.go:480-561 | user u is selected for (tenant, g) exactly when g is selected for (tenant, u), after any statements |
| `Schema.DualityNeedsUniqueIds` | internal/storage/groups.go:494-500 | with an id shared by two tenants the duality fails |
| `RowByRow.InsertGroupRows` | internal/storage/groups.go:56-90 | refused exactly when the tenant has the id or the name already; otherwise one new row |
| `RowByRow.PruneUserRows` | internal/storage/groups.go:331-341 | deletes exactly the user's rows outside the listed groups |
| `RowByRow.PruneGroupRows` | internal/storage/groups.go:442-452 | deletes exactly the group's rows of users that are not listed |
| `RowByRow.RemoveUsersRows` | internal/storage/groups.go:268-281 | deletes exactly the listed users' rows of the group |
| `RowByRow.PutMembersRows` | internal/storage/groups.go:213-228 | existing rows change updated_at only, new ones are plain members of the default tenant, all others stay |
| `RowByRow.UpsertMembersRows` | internal/storage/groups.go:213-230 | refused exactly when a row is named twice or a new one has no group in the default tenant |
| `RowByRow.UserRowsReplaced` | internal/storage/groups.go:319-366 | both statements leave the user in exactly the listed groups and touch nobody else |
| `RowByRow.GroupRowsReplaced` | internal/storage/groups.go:430-474 | both statements leave the group with exactly the listed users and touch no other group |
| `RowByRow.InsertGrantRows` | internal/storage/authorization.go:44-66 | which error, or one new row of the default tenant |
| `RowByRow.DeleteGrantsRows` | internal/storage/authorization.go:99-139 | deletes exactly the selected grants |
| `RowByRow.SelectedGrants` | internal/storage/authorization.go:115-232 | the bulk removals select by group and by application |
| `RowByRow.DeleteGroupRows` | migrations/00001_initial_schema.sql:23-56 | exactly the rows of the id disappear, in all three tables |
| `RowByRow.UpdateGroupRows` | internal/storage/groups.go:142-174 | not found exactly without such a row; otherwise the mutable columns of that row and nothing else |
| `RowByRow.ViewRows` | internal/storage/groups.go:480-561 | the two tenant-scoped selections, row by row |
| `Streams.Stream` | internal/storage/groups.go:506-518 | hands out rows in order until one does not scan, one is refused or the cursor breaks, and fails exactly when one of these happens |
| `Streams.NoGroupTwice` | internal/storage/groups.go:489-502 | the stream has exactly the user's groups of the tenant, each once, in the order of their names |
| `Streams.UnfilteredStreamIsTheList` | internal/storage/groups.go:284-314 | the unfiltered stream has the same groups, and name by name the same order, as `GetGroupsForUser` |
| `Streams.TenantStreamIsDetermined` | internal/storage/groups.go:480-519 | within a tenant the order by name leaves one possible sequence |
| `Streams.UserStreamIsDetermined` | internal/storage/groups.go:523-561 | the stream of a group's users is one sequence: exactly its users of the tenant, in order |
| `Streams.StreamsAreDual` | internal/storage/groups.go:480-561 | u is streamed for (tenant, g) exactly when g is streamed for (tenant, u) |
| `Storage.Store.CreateGroup` | internal/storage/groups.go:56-90 | exact error and tables: duplicate name in the tenant, outage, or one new row with the given columns |
| `Storage.Store.GetGroupByName` | internal/storage/groups.go:115-139 | finds the tenant's group of that name, or reports that there is none |
| `Storage.Store.DeleteGroup` | internal/storage/groups.go:177-190 | removes every row of the id by cascade, or nothing |
| `Storage.Store.AddUsersToGroup` | internal/storage/groups.go:193-233 | upserts exactly the distinct users, keeping role and created_at, or fails with no effect |
| `Storage.Store.UpdateGroupsForUser` | internal/storage/groups.go:319-366 | only the user's rows change: on success to exactly the listed groups, survivors keeping role and created_at and new ones plain; when it stops between its statements to the old groups that are listed; and which statements it is made of |
| `Storage.Store.SyncGroupMembers` | internal/storage/groups.go:430-474 | only the group's rows change: on success to exactly the listed users, between the statements to the old ones that are listed; the error is never classified |
| `Storage.Store.ListGroupsByPrefix` | internal/storage/groups.go:390-425 | lists exactly the tenant's groups whose name starts with the prefix, each once and in the order of their names |
| `Storage.Store.AddAllowedApp` | internal/storage/authorization.go:44-66 | inserts one grant, or reports a duplicate, a missing group or an outage with no effect |
| `TwoStores.Service.AddAllowedAppToGroup` | pkg/authorization/service.go:38-57 | insert, then tuple write, then the fate of the transaction: an `Add` step with its exact conditions for executing and for answering without error |
| `TwoStores.Service.RemoveAllowedAppFromGroup` | pkg/authorization/service.go:76-89 | a `Remove` step under every fate of begin and commit, with its exact conditions |
| `TwoStores.Service.RemoveAllAllowedAppsFromGroup` | pkg/authorization/service.go:59-74 | a `RemoveApps` step under every fate of begin and commit, also when the deleted rows cannot be read back; after an error only tuples of that group may be gone |
| `TwoStores.Service.RemoveAllowedGroupsForApp` | pkg/authorization/grpc_handlers.go:219-250 | an empty application id is refused with no effect; otherwise a `RemoveGroups` step under every fate of begin and commit, also when the deleted rows cannot be read back |
| `TwoStores.Service.DeleteGroup` | pkg/groups/service.go:83-94 | a `Delete` step under every fate of begin and commit; after an error only its tuples may be gone |
| `TwoStores.Service.Settle` | internal/db/middleware.go:28-42 | the end of a request leaves the rows that the lazy transaction's reference function says |
| `TwoStores.LeftIs` | internal/db/storage.go:158-168 | the request's statement outlives it if and only if it ran, and its begin failed or the handler succeeded and the commit went through |
| `TwoStoreRuns.RequestExactly` | pkg/authorization/service.go:38-117 | every request, grant by grant: when its row and when its tuple changes, and that no other does |
| `TwoStoreRuns.EveryStatementIsAnEvent` | pkg/groups/service.go:37-156 | every statement of the group endpoints is an event of the runs, under every fate of its transaction |
| `TwoStoreRuns.TidyAndThoroughMean` | pkg/authorization/service.go:38-117 | the two conditions on events, spelled out by request |
| `TwoStoreRuns.StepStrays` | pkg/authorization/service.go:38-117 | a step leaves a tuple without its row if and only if it is an addition that answered without error and was not committed, or a removal in a live group that lost its begin and did not get to that tuple |
| `TwoStoreRuns.StrandsByRequest` | pkg/authorization/service.go:38-117 | by request: an addition strands a tuple exactly when it is untidy; a single removal exactly when it is untidy and the live group had the tuple; a tidy event never does |
| `TwoStoreRuns.SafeStepExactly` | pkg/authorization/service.go:38-117 | from a safe state a step leads to a safe one if and only if it strands no tuple |
| `TwoStoreRuns.SafeRunsExactly` | pkg/authorization/service.go:38-117 | a run is safe throughout if and only if none of its events strands a tuple |
| `TwoStoreRuns.StepDrops` | pkg/authorization/service.go:38-117 | a step leaves a row without its tuple if and only if it is an addition that lost begin and tuple call, a removal that succeeded and was not committed, or a bulk removal that was not committed and had got to that tuple |
| `TwoStoreRuns.CompleteRunsExactly` | pkg/authorization/service.go:38-117 | rows have their tuples throughout a run if and only if none of its events drops one |
| `TwoStoreRuns.StrayHasACause` | pkg/authorization/service.go:38-117 | in every run, a tuple without its row goes back to an earlier untidy event about that grant |
| `TwoStoreRuns.RunsAreSafe` | pkg/authorization/service.go:38-89 | as long as every event was tidy, and whatever else failed, tuples of live groups are a subset of the `application_groups` rows |
| `TwoStoreRuns.SyncKeepsStores` | internal/importer/importer.go:97-181 | a synchronisation, however it fails, lets rows and tuples drift no further apart |
| `TwoStoreRuns.MissingHasACause` | internal/authorization/authorization.go:145-173 | in every run, a row without its tuple goes back to an earlier event about that grant that was not thorough |
| `Decisions.DecisionIsAJoin` | internal/authorization/authorization.go:76-82 | over every run the hook's check equals the join of `group_members` with `application_groups`, less the rows whose tuple was lost and plus the stranded tuples |
| `Decisions.PlainExactly` | internal/authorization/authorization.go:76-82 | the check equals the plain join, whatever the memberships, if and only if the stores have not drifted apart |
| `Decisions.PlainRunsExactly` | internal/authorization/authorization.go:76-82 | over a whole run the check is always the plain join if and only if no event strands or drops a tuple |
| `Decisions.CleanDecision` | internal/authorization/authorization.go:76-82 | a condition on the events alone that suffices: when every request was tidy and thorough, the check equals the plain join |
| `Decisions.LeftoversNeverMatter` | internal/authorization/authorization.go:76-82 | tuples of deleted groups never change a decision |
| `Decisions.SeenStrayIsExplained` | pkg/authorization/service.go:38-117 | even in the middle of a request, a tuple without its row is explained by an earlier untidy event, or by being inside an addition of that grant or a removal of it outside a transaction |
| `Decisions.GlimpseShows` | internal/db/storage.go:158-194 | what others can see includes the tuple of an addition before its commit and the tuple of a removal outside a transaction after its row is gone |
| `StoreDrift.CommitFailureStrands` | internal/db/middleware.go:28 | a run in which a failed commit lets a user in without a row |
| `StoreDrift.FailedBeginStrands` | internal/db/storage.go:159-168 | a run in which a failed begin and a failed tuple call let a user in without a row |
| `StoreDrift.FailedBeginLosesTuple` | internal/db/storage.go:159-168 | a run in which a failed begin and a failed tuple call leave a row on which the tables permit what the hook refuses |
| `Overlap.OverlapIsSafe` | pkg/authorization/service.go:38-117 | however requests overlap, a tuple of a live group has its committed row or the addition that wrote it is under way; at rest tuples of live groups are a subset of the rows |
| `Overlap.MoveKeepsInv` | pkg/authorization/service.go:38-117 | every statement, tuple call, commit and rollback keeps the invariant of locks, pending rows and tuples |
| `Overlap.QuietNeverWaits` | pkg/authorization/service.go:38-117 | with nothing under way a row can be added exactly to a live group that lacks it, and anything can be removed |
| `Overlap.WaitsOnlyForLocks` | pkg/authorization/service.go:38-117 | an addition waits only for a request that holds the row or deletes the group |
| `Overlap.FlightsGoOn` | pkg/authorization/service.go:38-117 | a request under way can always go on or give up, and what each move does |
| `Overlap.RemovalsSelect` | pkg/authorization/service.go:59-117 | a removal deletes every committed row and takes every tuple it is about |
| `Overlap.ScopesExactly` | pkg/authorization/service.go:59-117 | what each removal is about |
| `Overlap.OverlapIsCompleteExactly` | pkg/authorization/service.go:38-117 | rows always have their tuples if and only if no move takes the tuple of a committed row or commits an addition whose tuple was taken meanwhile |
| `Overlap.OverlapCanLoseTuple` | pkg/authorization/service.go:38-89 | an addition and a removal of one grant that overlap, both commit and leave a row without its tuple |
| `Importer.BuildDriverGroups` | internal/importer/importer.go:107-112 | maps exactly the prefixed names to exactly their users |
| `Importer.PlanExactly` | internal/importer/importer.go:107-112 | the users of `prefix:group` are exactly those mapped to the group, and there are no other names |
| `Importer.MirrorsDriver` | internal/importer/importer.go:97-181 | after a successful sync a user is in the default-tenant group `prefix:group` if and only if the driver mapped the user to the group |
| `Importer.MirrorsNothingElse` | internal/importer/importer.go:159-174 | after a successful sync every group under the prefix comes from a mapping |
| `Importer.IndexByName` | internal/importer/importer.go:120-124 | every listed name leads to a listed group of that name |
| `Importer.Importer.ReconcileDriverGroups` | internal/importer/importer.go:126-157 | the first loop keeps the progress invariant through every failure and counts failures exactly |
| `Importer.Importer.DeleteStaleGroups` | internal/importer/importer.go:159-174 | the second loop handles every stale name and takes tuples of deleted groups only |
| `Importer.Importer.Sync` | internal/importer/importer.go:97-181 | every id meets its fate, tuples are only taken from deleted groups, an error exactly when some call failed, and without error the memberships of the prefixed groups are exactly the driver's mappings |
| `SyncProgress.HandlingKeepsProgress` | internal/importer/importer.go:126-174 | handling one name, successfully or not, keeps the loop invariant |
| `SyncProgress.CutShortIsTried` | internal/importer/importer.go:126-174 | a sync that stops between two names leaves what a failed one may leave |
| `Reconciliation.Convergence` | internal/importer/importer.go:97-181 | after a successful sync the managed groups are exactly the driver's names with exactly the mapped users |
| `Reconciliation.OthersUntouched` | internal/importer/importer.go:92-96 | whatever fails, groups of other tenants or without the prefix keep every row of all three tables |
| `Reconciliation.OthersStayUntouched` | internal/importer/importer.go:92-96 | the same over any number of attempts with any driver data |
| `Reconciliation.MembersUnderFailure` | internal/importer/importer.go:126-157 | whatever fails, a managed group the driver still has keeps row and grants and ends with its old members, the target members or their intersection |
| `Reconciliation.SurvivorsKeepHistory` | internal/storage/groups.go:427-474 | whatever fails, a membership present before and after a sync keeps role and created_at |
| `Reconciliation.NewRowsArePlain` | internal/importer/importer.go:129-157 | whatever fails, new groups are plain default-tenant groups with fresh ids and planned names, new members are ordinary, and no grant is new |
| `Reconciliation.SecondSyncIsIdle` | internal/importer/importer.go:97-181 | a second successful sync with the same data creates and deletes nothing; members keep role and created_at |
| `Reconciliation.FailureIsForgotten` | internal/importer/importer.go:126-180 | any number of failed syncs, even with other driver data, followed by a successful one end in the same names and memberships as succeeding at once |
| `Reconciliation.SyncedEffect` | internal/storage/groups.go:430-474 | syncing members changes one group only, to exactly the listed users, survivors keeping role and created_at |
| `ImportRun.Import.Run` | internal/importer/importer.go:48-90 | only adds planned groups and members whatever fails, enrols every mapped user when nothing fails, and errs only when the driver does |
| `ImportRun.ImportsOnlyMappings` | internal/importer/importer.go:48-90 | whoever appears in a group was mapped to it, and joins as a plain member |
| `ReplicaLag.StoredMeansCaughtUp` | internal/db/storage.go:423-455 | for a limit under MaxInt64 the stored lag is within it exactly when the last storing sample saw a streaming replica within it |
| `ReplicaLag.LimitMustBeFinite` | internal/db/storage.go:171-178 | that equivalence holds for all histories exactly when the limit is under MaxInt64 |
| `Transactions.OneStatement` | internal/db/storage.go:158-168 | a single statement outlives its request exactly when its begin failed or the request commits |
| `Transactions.AtomicIfBegun` | internal/db/storage.go:256-288 | if the first begin succeeds, all statements take effect when the request commits and none fails, and nothing otherwise |
| `Transactions.AtomicExactlyWhenBegun` | internal/db/storage.go:158-168 | requests are all-or-nothing for all tables and statements if and only if the first begin succeeds |
| `Transactions.FailedBeginLeaksWrites` | internal/db/storage.go:159-168 | a failed first begin lets a failed request leave its first statement behind |
| `Transactions.MissingGroupEffect` | internal/storage/groups.go:319-366 | setting a user's groups with a missing one changes nothing when the first begin succeeds; otherwise exactly the user's rows outside the listed groups are gone; for the statements that `Storage.Store.UpdateGroupsForUser` sends |
| `Transactions.UnmarkedEffect` | internal/db/middleware.go:28-42 | requests entering unmarked and without a transaction never reach the replica and have exactly that effect |
| `Transactions.NoStatusIsOk` | internal/db/middleware.go:29-32 | a handler that writes no status counts as 200 |
| `Transactions.LastStatusCounts` | internal/db/middleware.go:46-54 | otherwise the last status written counts |
| `Transactions.StatementsExactly` | internal/db/storage.go:158-194 | the statements of a handler are those of its queries, in order |
| `DbClient.Client.MonitorTick` | internal/db/storage.go:432-452 | keeps the stored lag equal to what the samples so far call for |
| `DbClient.Client.Query` | internal/db/storage.go:158-194 | runs one statement, refused by the server or not, where it was routed, in any context, and keeps the client invariant: over the whole life of the client, under a finite limit, no statement reached a replica that was not caught up at that moment |
| `DbClient.Client.Get` | internal/db/storage.go:112-131 | begins on first use, retries after a failure, never twice after a success |
| `DbClient.Client.Statement` | internal/db/storage.go:158-194 | the exact route of a statement: lazy transaction, context transaction, replica for marked reads within the lag limit, primary |
| `DbClient.Client.WithTx` | internal/db/storage.go:256-288 | at most one successful begin, none without a statement; commit exactly for a begun transaction of a successful handler, rollback exactly for a begun one not committed, panics, refused statements and a caller's own transaction included |
| `DbClient.Client.Serve` | internal/db/middleware.go:16-45 | GET and HEAD run without a transaction of their own and reach the replica exactly when it is caught up; every other verb settles like WithTx, and unmarked and without a transaction has the effect of the reference function and never reaches the replica |

## Left out

- HTTP, gRPC and gateway handlers, router, CLI commands and server start-up: plumbing with easy branches.
- Logging, tracing, metrics: no effect on results.
- JWT verification, OIDC discovery, Salesforce, tenant-service and OpenFGA SDK internals: their answers are inputs.
- Real time, timeouts and connection pools: a timeout is a failing call.
- Liveness across `Stop`: jobs still queued when all workers have exited are never marked done (internal/pool/pool.go:58-66), so progress is claimed only while a worker is alive.
- Overlapping writers with failed begins or commits: `TwoStores` has the failures without the overlap, `Overlap` the overlap without these two failures.
- DbClient.Client.WithTx: whether the client saw a 2xx says nothing about the commit, since the middleware drops the error; no such claim is made.
- Keeping a group's name on update: the handler passes an empty name (pkg/groups/grpc_handlers.go:205-209) and storage writes it (internal/storage/groups.go:150).
- `CompareModel`, pagination helpers, enum conversions, bulk grant inserts and the remaining getters: single-expression claims.
- Empty and malformed group ids: the uuid columns reject them before any statement has an effect.

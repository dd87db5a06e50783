# finbot verification

A Dafny model of finbot, the YNAB mirror with an OAuth server and a read API over SQLite. SQL tables are maps or
sequences of rows, each SQL statement is a state update, and the peers over HTTP (YNAB, Turso, Slack, Google, fosite)
are environments that may answer anything their contract allows, or nothing. Methods follow the Go code and are proved
against specification functions; the lemmas are about those functions, over all inputs and all runs.

`dafny verify dfyconfig.toml` checks everything. Lemmas carry `{:induction false}`, so that no proof leans on
Dafny's automatic induction.

| files | part of finbot |
|---|---|
| `Prelude`, `Ordering` | options, filters, keys; strict orders, sorting, SQLite's BINARY text order |
| `Mirror`, `Sync`, `SyncRefinement`, `SyncReplay`, `SyncHistory` | the mirror tables, one sync tick, runs of ticks against a changing server, replays |
| `OAuthTables`, `OAuthStorage`, `GrantRuns`, `ClientCap`, `GrantLife` | the OAuth tables, the storage methods, runs of storage actions, how long codes and tokens live |
| `SignIn` | parked logins and consents, from the login to the code |
| `Lines`, `LineFilters`, `Keyset`, `Paging` | the split-aware line view, its filters, and keyset paging |
| `CategoryTotals`, `Spending`, `SpendingExact`, `SpendingRows`, `Money` | category totals, the comparison of two periods, when it adds up, what its rows say, decimal amounts |
| `BackupStore`, `BackupStream` | chunks, fetch and retention; the baton protocol of an upload |
| `Timestamps` | the byte scanner that adds zones to timestamps |
| `Governor`, `PostCap` | the token bucket; the cap on new Slack messages |

## What is assumed of the environment

- A YNAB delta, the payload as it arrives, from version k returns every entity that changed since k, and every entity it returns, however often,
  with its current value or a tombstone; live children have live parents; a tombstone of a live child names a parent
  that was live or is in the delta; a child that went with its tombstoned parent may be left out. An export is a delta
  from nothing. Referential integrity, orphan dropping and atomicity do not use this: they hold for every payload.
- `MirrorRefinesServer` also assumes that a delta mentions every scheduled subtransaction that is gone; the next section
  says what happens otherwise.
- fosite runs invalidate-or-rotate, then create access, then create refresh, inside one transaction, with fresh
  signatures, a fresh request id per code, and the code's or token's own request id for what it is exchanged for
  (sections 4.1.2 and 10.4 of RFC 6749). `Storage.Exchange` and `Storage.Refresh` are that call order.
- SQLite transactions are atomic and serialized; a COMMIT may fail, and a process may die at any step.
- A Turso server may lose a request or an answer, drop a stream, fail a statement or answer with an empty baton.
- Sign-in: states, consent ids and authorization requests are fresh, and each handler is a thread of its own. A handler
  may stop anywhere. A revocation may come between any two reads or locked sections, also between the check of a
  session and the code; `CodeWorksIff` says that such a code is never accepted.
- The clock does not go back where a row says so. The next section says exactly what depends on that.

## Where the code does less than it says

- The comment on `stitch` lets the mirrored children of a tombstoned parent go with it; the code does that for
  transactions, not for scheduled transactions. `ScheduledSubsFollowIff` gives the exact condition: scheduled
  subtransactions follow the server if and only if the delta mentions every removal.
  `ScheduledChildOutlivesParent` is a delta that fails.
- Link events are to fire once per transition. `DeliveredIffNoneLost` shows that callers see every transition if and
  only if no tick that flipped an account died between COMMIT and returning. `TransitionLost` is a run that loses one.
- Re-applying a batch is to change nothing. At a new time that holds if and only if no two rows of one transaction
  disagree on whether import_id is NULL (`ReapplyAtNewTimeIff`; `ReapplyIff` for any time). Repeated ids are harmless
  everywhere else. `DuplicateIdsMoveFirstSeen` is a delta that fails.
- The wait that the governor announces to a denied read is the least whole number of seconds if and only if
  reserve + 1 <= capacity; with reserve == capacity no wait is enough (`WaitIsLeast`).
- The governor's window bound counts the seconds by which the clock moved forward: it holds for any clock whose forward
  moves add up to at most the window (`WindowBound`), which a clock that never steps back meets (`MonotoneFits`). An
  hour back and forth grants twice (`ClockStepBackExceeds`).
- The cap on new messages holds if and only if the clock is not behind the latest attempt (`SpacedIffClockNotBack`).
  `ClockStepBackLiftsCap` is a run with two posts.
- `compareSpending` overwrites a row when two totals of one period share a category id. By `ClashIff`, the rows cover
  every line of a mirror's period if and only if it does not have both an uncategorized line and a line of a named
  category whose id is the empty string. What a column loses is then the sum of the uncategorized, nameless lines, so
  the columns and the differences add up if and only if that is 0, or the same on both sides
  (`MirrorComparisonIsExact`). `OverwritingLosesMoney` is a mirror whose day announces 1.50 over rows of 0.50.

## Model

| member | source | states |
|---|---|---|
| Mirror.UpsertedDistinct | store/mirror.go:193-208 | with unique keys, an upsert merges each row into the old table exactly once, whatever the order, and leaves every other key alone |
| Mirror.UpsertedReplaces | store/mirror.go:344-357 | a replacing upsert ends with a row of the batch for each mentioned key, independent of the old table, and keeps every other key |
| Sync.Tx.Upsert | store/mirror.go:193-208 | the statement executed once per row computes the specified table |
| Sync.Batch.constructor | sync/mapping.go:23-104 | the batch holds exactly the payload: the flat collections as they are, the months in order, and each nested month category, in order, under its enclosing month |
| Sync.MappedFlattens | sync/mapping.go:23-104 | mapping loses nothing and adds nothing |
| Sync.MappedMonthsCovered | sync/mapping.go:70-86 | every month category of a mapped batch has its month in the batch |
| Sync.Syncer.Has | sync/mirror.go:85-99 | true if and only if the id is in the batch or the mirror; a hit is remembered in the batch set |
| Sync.Syncer.LiveSubs | sync/mirror.go:102-120 | exactly the live mirrored children of the transaction |
| Sync.Syncer.KeepStitched | sync/mirror.go:26-46 | the in-place filter keeps exactly the children whose parent is in the batch or the mirror, in order, counts the others, and remembers the kept ids |
| Sync.Syncer.KeepScheduled | sync/mirror.go:64-80 | the same filter for scheduled subtransactions |
| Sync.Syncer.AppendTombstones | sync/mirror.go:48-62 | appends a tombstone for exactly the live mirrored children of tombstoned parents that the batch does not mention |
| Sync.CascadeWrites | sync/mirror.go:48-62 | writing the kept rows and then the appended tombstones gives the specified table |
| Sync.OrphansAre | sync/mirror.go:25-82 | the orphan count is the number of children, of both kinds, whose parent is neither in the batch nor in the mirror |
| Sync.Syncer.Stitch | sync/mirror.go:25-82 | after stitching, writing the batch gives the specified subtransactions; orphans are counted exactly |
| Sync.AppliedKeepsForeignKeys | store/migrations/0001_mirror.sql:137-138 | for every payload, a stitched batch with its months covered keeps the foreign keys, so the deferred check at COMMIT passes |
| Sync.Syncer.LinkEvents | sync/mirror.go:122-152 | one event per incoming live account whose flag differs from the mirrored one; a new account counts as healthy |
| Sync.EventsAre | sync/mirror.go:122-152 | in order, one event with id, name and new flag for each incoming live account whose flag differs from the mirrored one |
| Sync.Syncer.UpsertBatch | sync/sync.go:156-175 | writes the ten tables in order; success means all of them, and a failure leaves the working copy with exactly the tables before the failing one written |
| Sync.Syncer.Update | store/store.go:182-210 | either COMMIT replaces the plan by the whole written batch with its cursor, or nothing changes |
| Sync.Syncer.SyncPlan | sync/sync.go:92-154 | a tick's outcome and the resulting plans, for every reply and every point of failure: skipped, error, crashed or done, and the cursor that is stored; integrity is kept |
| SyncRefinement.TableFollows | store/mirror.go:193-208 | upserting a complete and current batch, repeated rows included, moves a table's live rows to the new version |
| SyncRefinement.SubsFollow | sync/mirror.go:25-82 | dropping orphans and cascading tombstones moves the live subtransactions to the new version even when the delta leaves cascaded children out |
| SyncRefinement.DroppedIsDead | sync/mirror.go:37-41 | a dropped orphan is live neither in the mirror nor on the server |
| SyncRefinement.ScheduledSubsFollowIff | sync/mirror.go:64-80 | scheduled subtransactions follow the server if and only if every removal is mentioned |
| SyncRefinement.ScheduledChildOutlivesParent | sync/mirror.go:64-80 | a delta that only tombstones a scheduled transaction leaves its mirrored child alive |
| SyncRefinement.FlatteningDelivers | sync/mapping.go:23-104 | what the payload delivers, months and nested categories included, the mapped batch delivers |
| SyncRefinement.StepRefines | sync/sync.go:92-154 | any tick keeps: the live mirror equals the server at the stored cursor, and the cursor never goes back |
| SyncRefinement.TickCatchesUp | sync/sync.go:92-154 | a tick that completes, or dies after COMMIT, has brought all live rows and the cursor to the fetched version; every other tick has changed nothing |
| SyncRefinement.MirrorRefinesServer | sync/sync.go:92-154 | over every run of ticks that succeed, skip, fail, roll back or die, and for payloads that deliver what they promise, the live mirror equals the server's live entities at server_knowledge |
| SyncReplay.ReapplyIff | sync/sync.go:118-141 | for any batch and times, a second application changes nothing but the cursor if and only if each transaction whose rows disagree on import_id being NULL already carries the second time; all other tables, cascades included, never change |
| SyncReplay.ReapplyAtNewTimeIff | store/mirror.go:314-342 | at a time never stamped before: if and only if no two rows of one transaction disagree on import_id being NULL |
| SyncReplay.ReapplyIsIdempotent | sync/sync.go:118-141 | so a batch whose rows agree, repeated ids or not, can be replayed at any time |
| SyncReplay.DuplicateIdsMoveFirstSeen | store/mirror.go:314-342 | a delta that lists a transaction without and then with its import_id does not survive a replay |
| SyncHistory.TaxBucketUntouched | store/mirror.go:210-238 | no payload changes an account's tax_bucket |
| SyncHistory.RunIsReplay | sync/sync.go:118-141 | a plan is the replay of its committed ticks: all others leave no trace |
| SyncHistory.FirstSeenIsLatestReset | store/mirror.go:314-342 | first_seen_at is the tick of the latest change of import_id from NULL to a value, or of insertion if there was none |
| SyncHistory.OneEventPerAccount | sync/mirror.go:125-152 | with unique ids a tick gives an account an event if and only if its mirrored flag flips |
| SyncHistory.TransitionsAlternate | sync/mirror.go:122-152 | the transitions of a never-tombstoned account alternate from its baseline, and the last one is the mirrored flag |
| SyncHistory.ReportedIsDelivered | sync/sync.go:111-116 | what callers are handed is what the committed ticks that returned computed |
| SyncHistory.DeliveredIffNoneLost | sync/sync.go:118-141 | callers see every transition if and only if no tick that flipped the account died after COMMIT |
| SyncHistory.TransitionLost | sync/sync.go:118-141 | a run whose second tick dies after COMMIT: the mirror holds the broken link and no caller ever hears of it |
| OAuthTables.SelectionUnique | auth/clients.go:70-82 | the ordered, limited selection is unique, so the eviction is deterministic |
| OAuthStorage.Storage.BeginTX | auth/storage.go:97-115 | opens a transaction on a working copy; nesting is refused |
| OAuthStorage.Storage.Commit | auth/storage.go:117-131 | a commit installs the working copy or, if it fails, leaves the tables as they were |
| OAuthStorage.Storage.Rollback | auth/storage.go:132-155 | discards the working copy; harmless after a commit |
| OAuthStorage.Storage.Create | auth/storage.go:192-234 | stores the row active, with the request's own id, client, expiry and session, if and only if no part is missing, the signature is new and the client known; every other row stays as it was |
| OAuthStorage.Storage.CheckSession | auth/generations.go:64-88 | accepts exactly a named subject with an integer generation equal to its own plus the global one |
| OAuthStorage.Storage.Load | auth/storage.go:236-274 | returns the stored row, used up or not, if and only if its client is known and its session accepted |
| OAuthStorage.Storage.InvalidateAuthorizeCodeSession | auth/storage.go:302-316 | only an active code can be invalidated, and only once |
| OAuthStorage.Storage.Delete | auth/storage.go:276-281 | the given row is gone, if it was there; every other row of every table is as it was |
| OAuthStorage.Storage.RevokeRefreshToken | auth/storage.go:382-390 | afterwards no refresh token of the grant is active and all are still stored; every other row and table is as it was |
| OAuthStorage.Storage.RevokeAccessToken | auth/storage.go:392-399 | afterwards exactly the access tokens of other grants are left, as they were; every other table is as it was |
| OAuthStorage.Storage.RotateRefreshToken | auth/storage.go:401-421 | retires the grant's tokens if and only if the given one is its active token; otherwise the tables are unchanged |
| OAuthStorage.Storage.Exchange | auth/storage.go:302-364 | a code exchange commits invalidate and both creates together or not at all |
| OAuthStorage.Storage.Refresh | auth/storage.go:339-421 | a refresh commits rotate and both creates together or not at all |
| OAuthStorage.Storage.BumpGeneration | auth/generations.go:44-59 | adds one to the user's own counter and returns it; an empty user is refused |
| OAuthStorage.Storage.CountActive | auth/storage.go:444-487 | counts exactly the matching rows at their current generation, with a generation cache that stays correct |
| OAuthStorage.Storage.ActiveTokens | auth/storage.go:423-442 | the number of unexpired, active, accepted rows of the user, or of everyone |
| OAuthStorage.Storage.Prune | auth/storage.go:489-513 | keeps, row by row and in every table, exactly what expires later than now, and returns how many went; or changes nothing |
| OAuthStorage.Storage.MakeRoom | auth/clients.go:59-92 | evicts the oldest dead clients, exactly as many as needed, or fails |
| OAuthStorage.Storage.SelectOldest | auth/clients.go:70-82 | the n oldest of the given clients |
| OAuthStorage.Storage.RegisterClient | auth/clients.go:21-57 | one transaction: room is made and the client is inserted, or every table is unchanged; a client that is not public or has no id is refused |
| GrantRuns.StepKeepsGrants | auth/storage.go:276-421 | each committed action, the two revocations and single-row deletes included, keeps grants linear, unused codes without tokens, and signatures tied to one request id |
| GrantRuns.EveryRunIsLinear | auth/storage.go:401-421 | in every reachable state a grant has at most one active refresh token and one access token |
| GrantRuns.SpentForever | auth/storage.go:302-316 | a code or token that was stored and is inactive or gone never becomes active again |
| GrantRuns.AtMostOneSucceeds | auth/storage.go:401-421 | of any exchanges of one code, or rotations of one token, at most one succeeds |
| GrantRuns.OtherGrantsUntouched | auth/storage.go:276-421 | redeeming, refreshing, revoking the refresh or the access tokens of a grant, or deleting a row of it, leaves every row of every other grant as it was |
| GrantRuns.GenCountsRevocations | auth/generations.go:32-59 | a user's generation moves exactly with the committed bumps of the user or of "*" |
| GrantRuns.RevocationIsExact | auth/generations.go:61-88 | a session is accepted if and only if no bump of its subject or of "*" committed since its generation was read |
| GrantRuns.GensStayPast | auth/generations.go:28-42 | no stored session claims a generation that was never current |
| GrantRuns.BumpLeavesNoneActive | auth/storage.go:423-487 | right after a bump of a user, that user's count is 0; after a bump of "*", everyone's is |
| GrantRuns.BumpIsPersonal | auth/generations.go:44-59 | a bump of one user changes no answer about another's sessions |
| GrantRuns.AllUsersIsSum | auth/storage.go:423-487 | the count for "*" is the sum over the users |
| GrantRuns.CountedIffLoads | auth/storage.go:236-274 | the count covers exactly the unexpired rows that a load returns as active |
| ClientCap.SurvivesIff | auth/clients.go:70-82 | a client survives an eviction if and only if it was not selected |
| ClientCap.EvictSparesLive | auth/clients.go:21-24 | no live code, access or refresh row is lost to an eviction |
| ClientCap.RegistrationIsExact | auth/clients.go:25-92 | fails if and only if all of 500 clients are live; otherwise evicts one client if there are 500 and none if fewer, the oldest of the dead, with its rows; no live row and no survivor's row is touched |
| ClientCap.CapHoldsInEveryRun | store/migrations/0005_oauth.sql:22 | in every reachable state: at most MaxClients clients, unique ids, and no row without its client |
| GrantLife.CreatingStores | auth/storage.go:192-234 | a create succeeds if and only if the request can be stored; the row is then as asked for, and nothing else moved |
| GrantLife.StepLeaves | auth/storage.go:276-513 | what each committed action leaves of a given row: nothing, the row used up, or the row as it was |
| GrantLife.CodeRedeemsIff | auth/storage.go:302-364 | a code issued in a run can be exchanged if and only if nothing redeemed, deleted, pruned or evicted it since; it is then stored as asked for and its client is registered |
| GrantLife.TokenRotatesIff | auth/storage.go:401-421 | a refresh token issued in a run can be rotated if and only if nothing rotated or revoked its grant, or deleted, pruned or evicted it since |
| GrantLife.AccessLoadsIff | auth/storage.go:236-274 | an access token that nothing removed loads with its request's id and expiry if and only if its session is accepted |
| GrantLife.UsedCodeLoadsIff | auth/storage.go:287-316 | replay detection: a redeemed code that nothing removed loads as used up, with its grant's id, if and only if its session is accepted |
| GrantLife.RotatedTokenLoadsIff | auth/storage.go:366-390 | the same for a refresh token that was rotated away |
| SignIn.Server.DropExpired | auth/server.go:403-412 | exactly the unexpired entries stay |
| SignIn.Server.ParkLogin | auth/server.go:309-333 | parks if and only if fewer than MaxPending unexpired entries are left |
| SignIn.Server.ParkConsent | auth/server.go:383-388 | the same for consents |
| SignIn.Server.TakeLogin | auth/server.go:344-354 | the state is consumed whatever the outcome; an expired login is not used |
| SignIn.Server.TakeConsent | auth/server.go:423-437 | the consent is consumed whatever the outcome; it is used only unexpired and with both csrf values equal |
| SignIn.StepKeepsBound | auth/server.go:398-418 | every locked section keeps pending plus consents at most MaxPending |
| SignIn.StepKeepsOnePlace | auth/server.go:344-461 | an authorization request is in at most one place: parked, in a callback, awaiting consent, approved, checked, or issued |
| SignIn.EveryRunIsSafe | auth/server.go:309-461 | over every interleaving: the bound on parked entries holds, and each authorization request is in at most one place |
| SignIn.OneCodePerRequest | auth/server.go:342-461 | over every interleaving each authorization request yields at most one code |
| SignIn.CodesAreUnrevoked | auth/server.go:344-461 | every code goes back to a login taken in time, a callback that read the generation of an allowlisted user, a consent given in time, and a check; no bump of the user or of "*" lies between the read and the check |
| SignIn.CodeWorksIff | auth/server.go:444-456 | at every later moment the session of an issued code is accepted if and only if no bump of the user or of "*" has come since the callback read the generation |
| SignIn.KeysAreSingleUse | auth/server.go:420-430 | a state or consent id that was taken is never usable again |
| SignIn.GoesIff | auth/server.go:309-461 | each locked section takes a sign-in one place further if and only if it has what it needs: room below 100 entries, ten minutes not over, an allowlisted user, both csrf values and the approval, a current generation |
| SignIn.TicketWaits | auth/server.go:309-461 | over every interleaving a sign-in stays where it is until an action takes, drops or ages out just that entry |
| Lines.LineIdsUnique | store/transactions_read.go:18-34 | no two lines share a transaction id and a subtransaction id |
| Lines.LinesAre | store/transactions_read.go:18-34 | the lines are exactly the unsplit live transactions with their own columns and the live parts: own amount, category and transfer, own payee if there is one, and the rest from the parent |
| Lines.EveryDollarOnce | store/transactions_read.go:10-16 | the total of all lines is the sum over live transactions of their amount, or of their live parts when split |
| Lines.NoFanOut | store/transactions_read.go:36-43 | a left join on a key keeps every row in its place with its one match or NULL |
| Lines.JoinsNeverFanOut | store/transactions_read.go:36-43 | the four joins return exactly the lines, in order, each with the names that its ids look up |
| LineFilters.EscapedIsLiteral | store/transactions_read.go:124-126 | an escaped text matches itself in any case and nothing else |
| LineFilters.PatternIsSubstring | store/transactions_read.go:105-108 | the payee pattern matches exactly the names that contain the text, whatever wildcards it contains |
| LineFilters.Where | store/transactions_read.go:92-122 | the conditions together select exactly the lines that the filter promises |
| LineFilters.MatchesIff | store/transactions_read.go:81-122 | what that is, field by field: dates and amounts inclusive, account and category by id or by name in any case, text within the payee or the imported payee in any case |
| Ordering.TextLessIff | store/transactions_read.go:159 | the text order: the first different character decides, and a proper prefix is smaller |
| Keyset.PagesAscend | store/transactions_read.go:152-157 | following the last key of each page, keys are strictly increasing within and across pages |
| Keyset.StayingReturnedOnce | store/transactions_read.go:134-179 | once paging ends, a row that every view held was returned exactly once |
| Keyset.FrozenPrefix | store/transactions_read.go:134-179 | over an unchanging view the pages are a prefix of it, at least one row each, and all of it once ended |
| Paging.KeyOrder | store/transactions_read.go:67-79 | the page order is a strict total order, and the cursor condition is that order |
| Paging.NamedKeysDistinct | store/transactions_read.go:75-79 | in any mirror, line keys are unique |
| Paging.QueryLines | store/transactions_read.go:134-179 | up to limit matching lines after the key, in order, and the count and sum of all matching lines |
| Paging.QueryTransactions | mcp/tools_transactions.go:189-246 | refuses exactly the bad requests; otherwise the page that follows the cursor, newest first, the summary of all matches, and a cursor that names the last line if and only if more lines follow; 50 lines by default, at most 200 |
| Paging.RunFollowsCalls | mcp/tools_transactions.go:207-233 | a run of pages is a run of calls that hand next_cursor on: each answer adds its lines, and the run goes on from its cursor or has ended |
| Paging.PagesNeverRepeat | mcp/tools_transactions.go:222-233 | however the mirror changes between pages, keys are strictly increasing |
| Paging.PagesNewestFirst | store/transactions_read.go:159 | over all pages: a later line has no later date; on one date no smaller transaction id; in one transaction a greater subtransaction id |
| Paging.PagesOnlyMatch | store/transactions_read.go:134-179 | every returned line was a matching line when its page was read |
| Paging.PagingIsComplete | mcp/tools_transactions.go:222-233 | once paging ends, every line that kept its key and kept matching was returned exactly once |
| Paging.MirrorPagingIsComplete | mcp/tools_transactions.go:222-233 | for any sequence of mirrors with unique ids: the pages are newest first, every returned line matched when read, and once paging ends every line that kept its key and kept matching was returned exactly once |
| Paging.FrozenPagesAreAll | mcp/tools_transactions.go:227-233 | on a frozen mirror the pages concatenate to the full ordered result, and their count and sum are match_count and match_total |
| Paging.FrozenPagingEnds | mcp/tools_transactions.go:222-233 | on a frozen mirror paging ends after at most as many calls as there are matching lines |
| Paging.FrozenMirrorPages | mcp/tools_transactions.go:222-233 | any mirror that does not change is paged to the end, with the full ordered result, match_count and match_total |
| CategoryTotals.SpentAre | store/transactions_read.go:190-202 | a period counts exactly the lines dated from start to end, both included, in on-budget accounts, except transfers without a category and internal "Inflow:" categories |
| CategoryTotals.TotalsPartition | store/transactions_read.go:190-219 | sums and counts of the totals add up to the lines |
| CategoryTotals.TotalsAre | store/transactions_read.go:190-219 | each key that occurs has exactly one total, of exactly its lines, in order of group, name and id |
| Spending.Enter | mcp/tools_transactions.go:303-327 | the loop over one period's totals, with its running total |
| Spending.EnteringCounts | mcp/tools_transactions.go:318-326 | a period's rows count every total if and only if no two totals share an id; its amounts are off by exactly the overwritten totals; the other period's columns are untouched |
| Spending.CompareSpending | mcp/tools_transactions.go:288-351 | both totals, and the rows of the lines that count, sorted by the size of their difference, then by name |
| SpendingExact.ComparisonIsExact | mcp/tools_transactions.go:297-351 | announced totals are the sums of the spending lines; rows cover every line if and only if no ids clash; columns and differences are off by exactly the totals that were overwritten |
| SpendingExact.ClashIff | store/transactions_read.go:194-201 | lines of a mirror clash if and only if one is uncategorized and another has a named category with an empty id |
| SpendingExact.MirrorComparisonIsExact | mcp/tools_transactions.go:297-351 | for the mirrors that the two periods are read from: what is lost is the sum of the blank lines of a clashing period, so a column adds up if and only if that is 0, and the differences if and only if both sides lose the same |
| SpendingExact.OverwritingLosesMoney | mcp/tools_transactions.go:318-326 | a mirror with unique ids whose day announces 1500 while its rows add up to 500 |
| SpendingRows.RowsAreExact | mcp/tools_transactions.go:297-351 | for periods that do not clash: one row for each category id with a spending line; its columns and counts are those of the id's lines in each period, its name and group are theirs; larger differences first, equal ones by name |
| Money.MoneyRoundTrip | mcp/tools_transactions.go:73-108 | parsing a formatted amount returns it if its whole part is at most 10^12, and is refused beyond that |
| Money.FormatInjective | mcp/tools_transactions.go:73-83 | different int64 amounts never look alike, the minimum included |
| Money.ParsesAmount | mcp/tools_transactions.go:85-108 | every well-formed decimal text is read as the amount it denotes, or refused if too large |
| Money.ParsesOnlyAmounts | mcp/tools_transactions.go:85-108 | nothing else is read |
| BackupStore.ChunkShape | backup/turso.go:322-349 | max(1, ceil(len/size)) chunks, all full but possibly the last |
| BackupStore.ChunksJoin | backup/turso.go:322-349 | the chunks join to the data |
| BackupStore.FetchAfterPut | backup/turso.go:377-397 | fetching a stored backup returns the same bytes |
| BackupStore.Fetch | backup/turso.go:377-397 | the chunks in order, or failure at the first missing one |
| BackupStore.PruneKeepsNewest | backup/turso.go:399-405 | afterwards the list is exactly the first keep entries of the former one, with whole backups kept or removed |
| BackupStream.Turso.Pipeline | backup/turso.go:194-258 | the baton returned is the one passed in, none, or one the server knows; after a close that succeeded it is none; an empty request and a successful BEGIN leave what is committed as it is; the request is logged with its answer |
| BackupStream.Turso.SendChunks | backup/turso.go:293-308 | while chunks go out nothing is committed, each insert goes out on the baton that the one before it was answered with, back to the successful BEGIN, and success means every chunk was acknowledged on that stream |
| BackupStream.Turso.Put | backup/turso.go:266-313 | whatever the server and the link do, at every moment all chunks of the backup are committed or none; COMMIT goes out only after every insert was acknowledged, on the baton that the last of them was answered with; it succeeds, with all chunks stored, if and only if the id is new, nobody else holds the lock, no request of it is lost, fails, is refused or loses its stream, and the reader holds |
| Timestamps.IsKey | ynab/transport.go:57-70 | whether the next byte that is not a space is a colon |
| Timestamps.FindEnd | ynab/transport.go:28-36 | the closing quote of the string, escapes skipped |
| Timestamps.NormalizeTimestamps | ynab/transport.go:15-52 | equals the tokenizer specification: one Z before the closing quote of exactly the terminated, non-key strings that are zone-less timestamps |
| Timestamps.NaiveIffShown | ynab/transport.go:12-15 | a string is rewritten only as the print of a date-time without a zone: four-digit year, two-digit fields, and no fraction or a point and one or more digits |
| Timestamps.BeforeColonIff | ynab/transport.go:57-70 | a string is a key if and only if only spaces, tabs, line feeds and carriage returns are between it and a colon |
| Timestamps.PrintTokens | ynab/transport.go:17-21 | the tokens of a text print back to it |
| Timestamps.TokensOfPrint | ynab/transport.go:17-21 | printed well-formed tokens are read back unchanged |
| Timestamps.OnlyZonesAreAdded | ynab/transport.go:17-21 | the output has the same string boundaries, and removing the zones restores the input |
| Timestamps.LengthGrows | ynab/transport.go:42-47 | the output is longer by exactly one byte per rewritten string |
| Timestamps.NormalizeTwice | ynab/transport.go:15-52 | a second application changes nothing |
| Timestamps.ColonNextIsToken | ynab/transport.go:57-70 | the byte test for keys agrees with the tokens |
| Governor.Governor.constructor | ynab/governor.go:38-59 | a full bucket with the limit and the reserve clamped |
| Governor.NewBucketIs | ynab/governor.go:38-59 | the limit is at least 1, the reserve between 0 and the limit, and otherwise both are as configured |
| Governor.Governor.Take | ynab/governor.go:78-92 | after the refill since the last call, grants a write if and only if one token is there and a read if and only if one is there above the reserve; spends it, or announces a wait |
| Governor.Governor.Allow | ynab/governor.go:94-103 | agrees with Take and spends nothing |
| Governor.Governor.Remaining | ynab/governor.go:105-112 | the whole tokens for reads and for writes |
| Governor.RemainingIsExact | ynab/governor.go:105-112 | exactly that many requests in a row succeed |
| Governor.GrantsFitForwardTime | ynab/governor.go:60-92 | whatever the clock does, grants are at most what the bucket held at the first call plus what forward time earned, and reads at most what it held above the reserve plus the same |
| Governor.WindowBound | ynab/governor.go:60-92 | for any clock, calls between which it moves forward by at most T seconds grant at most capacity + T*rate requests and capacity - reserve + T*rate reads |
| Governor.MonotoneFits | ynab/governor.go:60-68 | a clock that never steps back meets that condition in every window of T seconds |
| Governor.ClockStepBackExceeds | ynab/governor.go:60-68 | a clock that steps an hour back and forth grants 2 requests at one moment with capacity 1 |
| Governor.WaitIsLeast | ynab/governor.go:84-88 | the announced wait is the least whole number of seconds that suffices if and only if the request can ever fit |
| PostCap.Updater.Load | status/status.go:146-165 | loaded afterwards if it was or the read succeeded; the memory takes the stored state at most once, and neither store, posts nor channel change |
| PostCap.Updater.Post | status/status.go:207-250 | the attempt is stored before the request, kept after an ambiguous answer and given back only after a refusal |
| PostCap.Updater.Send | status/status.go:177-205 | edits the stored message if it can, otherwise posts |
| PostCap.Updater.Update | status/status.go:167-175 | without a loaded state nothing happens; at most one message is posted, never within the cap, and only with its attempt in the store |
| PostCap.UpdatePostsIff | status/status.go:177-250 | nothing is stored or posted unless the state is known, the channel found, the remembered message gone or elsewhere, and the last attempt six hours old; a message may be created if and only if the attempt was then stored and the post was sent and not refused |
| PostCap.PostIsRemembered | status/status.go:207-250 | afterwards: a refusal gives the attempt back, an unclear answer keeps it, a created message is remembered with its channel, each in memory and in the database as far as the writes work |
| PostCap.PostsAreSpaced | status/status.go:207-223 | with a clock that does not go back, any two requests that may have created a message are at least repostEvery apart, over restarts, crashes and failed writes |
| PostCap.AttemptBlocksWindow | status/status.go:212-223 | an attempt that may have created a message blocks every post within the window |
| PostCap.RefusalKeepsWindow | status/slack.go:30-37 | a provably refused post does not consume the window in the running process |
| PostCap.SpacedIffClockNotBack | status/status.go:212-223 | with the latest post as the recorded attempt, one more post that may be created stays a window apart from all others if and only if the clock is not behind that record |
| PostCap.ClockStepBackLiftsCap | status/status.go:215 | a run with two posts at one moment after a step back |

## Left out

- HTTP, TLS, JSON and base64 coding, age encryption, SQLite and fosite internals: libraries that are not part of this model.
- `cmd/`, `config/`, `auth/google.go`, `auth/allowlist.go`, `mcp/server.go`, `mcp/freshness.go`: thin wiring.
- `store/planscan.go`, `store/migrate.go`, `Freshness`, `ScanDiscretionary`, `TriggerImport`: simpler than what is modelled.
- Rendering, redaction, escaping and logging: text plumbing.
- Columns of mirror rows that no property depends on are one opaque value; memo, cleared and flag are among them.
- `Result.Rows`: the row counts that a tick logs.
- Sync.Syncer.Stitch: the order of the mirrored children that a cascade reads is arbitrary, as the query has no ORDER BY; errors while reading the mirror end the tick before it writes and are covered by a failing fetch.
- OAuthStorage.Storage.ActiveTokens: its three queries and the generation reads see one state, while in the code other writers may commit in between; the count only reports. A fractional stored generation, which fails the code's scan, is not counted.
- OAuthStorage.Storage.Create: called on a transaction that is already finished, which fosite does not do, is not modelled (`requires !tx.Finished?`); the same holds for the other storage methods.
- `HMACSecret`, PKCE verification, `GetClient` and client metadata.
- SignIn.Server.ParkConsent: Google's exchange is an input of a run, and the allowlist is the set of users it admits; a client name that is gone by then is a dropped callback.
- Paging.QueryTransactions: dates are compared as text and not parsed; the cursor is a key with a digest of the filter instead of base64 JSON, and nothing is said about digests that collide.
- LineFilters.Where: letters outside ASCII fold in Go's ToLower but not in SQLite's lower(); only ASCII is folded here.
- Paging.QueryLines: sums are unbounded integers, so SQLite's overflow error is not modelled.
- Spending.CompareSpending: amounts stay milliunits; periods are given as their first and last day, and the number of days is not modelled.
- BackupStream.Turso.Pipeline: each call carries at most one statement, as every call of Put does; other clients of the database are not modelled.
- BackupStore.Fetch: only missing chunks fail; network errors of Fetch, List and Prune change nothing and are left out.
- Governor.Governor.Take: tokens are reals, so floating-point rounding is not modelled; the announced wait is in seconds.
- PostCap.Updater.Update: the backup columns of the status row and `SyncDone`/`BackupDone`, which only set them, are left out.

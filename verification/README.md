# A Dafny model of the sync, report, session and ingestion core

The service keeps one store per user of tracked activity and a few mutable
entities, lets devices push into it and pull from it, and reports on it. This
project models the four parts whose guarantees are argued in comments over all
interleavings, all inputs or all runs, and proves them.

**The change feed.** Writers take transaction ids, draw `server_seq` values from
a global sequence and commit or abort in any order. A pull reads, on one
snapshot, the changelog rows below that snapshot's xmin in `(xid8, server_seq)`
order. A pruner deletes aged rows and moves a horizon. `ChangeFeed` is that
protocol as a state machine; `FeedInvariants` proves what every step keeps;
`FeedDelivery` proves that a client gets each committed row exactly once and
converges to the server's state, also across cursor resets; `FeedReset` proves
when the reset signal recovers; `FeedScope`, `FeedWrites` and `Refusals` say whose
entities, which writes and how old rows these results are about; `FeedRuns` holds concrete runs where it does not.
`PullService` and `Retention` are the imperative pull and pruner, proved against
the machine, and `TokenClient` carries the results over to whole runs of a client
that talks to the endpoint through tokens. `Keyset` and `CursorCodec` are the pagination and
the opaque tokens; `Activities` is the list endpoint that uses both.

**Reports.** `Trim` and `TrimMeasure` prove that clip, in-place sort and sweep
measure a union of intervals and how that measure composes under cuts; `Window`
is the closed/open split; `Reports` the grouping loops and the aggregate query;
`DimensionReport` the report under filters; `DeviceCap` relates the cap to the exact merge on one device, `ReportBounds` the
aggregate to the exact path bucket by bucket, and `ReportSplit` the report over a
split range to the exact total of the range. Times are integer
nanoseconds.

**Sessions.** `Lockout` is the atomic failure counter; `Rotation` the row-lock
protocol of refresh-token rotation, `RotationInvariants` what it keeps over every
interleaving, `RotationRaces` who may report reuse, and `RotationReach` how far a family revocation reaches while
rotations are in flight; `Sessions` the whole calls taken one at a time.

**Push.** `Push` is the ingestion loop and its statements; `PushHistory` what any
history of writes leaves behind, and `PushItems` the same in terms of the items.

Code that updates tables, fields or arrays in place is a method proved against a
function of the old state; queries are functions; the theorems are lemmas about
those functions and about runs of them.

## Where the code and its own comments part

* A reset to the empty cursor is called always safe (`internal/sync/errors.go:28-41`).
  `FeedRuns.ResetCanStayStale` is a run in which a refused client resets, keeps a
  dead entity and misses a live one; `FeedRuns.ResetCanBeRefused` one in which the
  reset itself is refused again; `FeedReset.ResetRecoversIff` is the exact condition,
  whatever the client holds.
* Changelog rows in `changelog_id` order are said to be in cursor order
  (`internal/store/storedb/sync_retention.sql.go:34-43`).
  `FeedRuns.ChangelogIdOrderIsNotCursorOrder` is a run in which they are not, and
  `Retention.IdOrderIsCursorOrderIff` says of every run whether they are. The
  horizon is nevertheless sound, because it is a bound in each component.
* The horizon may refuse a client that has lost nothing
  (`FeedRuns.RefusalCanBeNeedless`): `FeedInvariants.RefusalExactIffHorizonIsOwnRow`
  says, user by user, when.
* An actively paging client is said never to be refused between two pages, because the
  maximum age would have to elapse in between (`internal/sync/retention.go:47-56`). What
  has to be old is the rows ahead of it, not the gap: `FeedRuns.ActiveClientCanBeRefused`
  is a run with a single tick in between, and `Refusals.RefusedIff` the exact condition.
* A family revocation misses a token whose rotation was in flight
  (`RotationReach.ReuseReportCanMissAToken`): reuse is reported and the family's
  newest token stays usable. `RotationReach.FamilyRevocationKillsIff` is the exact
  condition.
* The daily aggregates sum a rounded `duration_s` of every event, tombstoned or
  not (`internal/store/migrations/000035_create_daily_category_totals_cagg_v2.up.sql:4-13`):
  `ReportBounds.SubSecondEventsFallThrough` and
  `ReportBounds.TombstonesStayInTheAggregate`. So the aggregate is not an upper bound
  for sub-second events; `DeviceCap.CapBoundsEveryPlacementIff` says for which lengths it
  is, and `ReportBounds.AggregateIsExactIff` when a bucket is exact all the same.
* The zero cursor of the activities list is said to sort before every row
  (`internal/activities/cursor.go:28-32`). An event at or before the epoch is never
  listed from the beginning (`Activities.ListedFromTheBeginningIff`), and one past
  the int64 nanosecond range sends the client back to the start
  (`Activities.CursorPastInt64StartsOver`, `Activities.PagingCanGoRoundInCircles`).
* Replaying a focus session outside the clock-skew limit rewrites it
  (`PushHistory.SessionReplayIsNoOpIff`).

## Model

| member | source | states |
|---|---|---|
| Keyset.Sorted | internal/store/storedb/pull.sql.go:288-289 | ORDER BY lists exactly the rows selected, each once, strictly ascending |
| Keyset.AscendingIsUnique | internal/store/storedb/pull.sql.go:288-289 | there is only one such listing, so results do not depend on how it was produced |
| Keyset.PageIsExact | internal/store/storedb/pull.sql.go:284-290 | a page is exactly the rows between the old and the new cursor, none skipped, whatever the limit |
| Keyset.PageSplits | internal/activities/service.go:117-126 | page followed by what lies beyond its cursor is the list that lay beyond the old cursor |
| Keyset.PagesConcatenate | internal/store/storedb/pull.sql.go:275-290 | pages followed through their cursors concatenate to the whole ordered list, after finitely many |
| Keyset.PagesAreFull | internal/sync/pull.go:372-375 | every followed page but the last has exactly the page size |
| CursorCodec.Base64RoundTrip | internal/store/cursor.go:92-94 | decoding the unpadded base64url text of any bytes gives the bytes back |
| CursorCodec.SymbolsAreRfc4648 | internal/store/cursor.go:92-94 | the symbols are base64url's, in its order (section 5 of RFC 4648) |
| CursorCodec.Vectors | internal/store/cursor.go:92-94 | the text of some of RFC 4648's test vectors without padding, and of one with the last two symbols |
| CursorCodec.TokenTexts | internal/activities/cursor.go:37-40 | a pull token encodes xid8, colon, server_seq, an activities token nanoseconds, colon, id |
| CursorCodec.AcceptedPullTokens | internal/store/cursor.go:101-125 | a nonempty token is accepted only if it is base64url of two decimal numbers within their 64 bits, the second not negative |
| CursorCodec.PullCursorRoundTrip | internal/store/cursor.go:92-125 | a pull cursor survives its token if its server_seq is not negative and is refused otherwise |
| CursorCodec.PullTokensAreDistinct | internal/store/cursor.go:92-94 | two cursors with the same token are the same cursor |
| CursorCodec.CursorRoundTrip | internal/store/cursor.go:19-43 | the plain list cursor survives its token, negative values are refused |
| CursorCodec.UuidRoundTrip | internal/activities/cursor.go:62-64 | the text form of every 128-bit id parses back to it |
| CursorCodec.ActivityCursorRoundTrip | internal/activities/cursor.go:37-66 | every in-range timestamp and id survives the activities token |
| FeedInvariants.StepKeeps | internal/sync/retention.go:27-56 | every writer and pruner step keeps the invariant: rows settled, horizon covering, entities logged |
| FeedInvariants.RunKeeps | internal/sync/pull.go:268-314 | so does every run |
| FeedInvariants.HorizonAdvances | internal/store/storedb/sync_retention.sql.go:14-22 | in no run does the horizon move back, in either component or in cursor order |
| FeedInvariants.AcceptedCursorIsGapFree | internal/sync/pull.go:351-360 | in every reachable state an accepted nonzero cursor has no pruned row after it, although maxima are taken by component |
| FeedInvariants.RefusalExactIffHorizonIsOwnRow | internal/sync/pull.go:351-360 | every refused cursor of a user has a pruned row of that user's scope after it if and only if the horizon is the position of such a row, or nothing was pruned |
| FeedRuns.RefusalCanBeNeedless | internal/sync/retention.go:158-181 | a run in which a client holding exactly its live entities, with no pruned row of its scope past its cursor, is refused because of another user's row |
| FeedInvariants.XminAdvances | internal/store/storedb/pull.sql.go:284-288 | no step lowers xmin |
| FeedInvariants.FrozenPast | internal/sync/pull.go:376-379 | once a cursor is below a snapshot's xmin, no later run adds or changes a row at or below it |
| FeedDelivery.RunKeepsDelivery | internal/sync/pull.go:315-437 | what was delivered stays exactly what is owed, through every interleaving of steps and pulls |
| FeedDelivery.IssuedCursorIsSettled | internal/sync/pull.go:376-379 | every cursor a pull returns is below xmin and may be resumed from at any time |
| FeedDelivery.GapFreeExactlyOnce | internal/sync/pull.go:341-379 | after any run a client has received exactly the committed in-scope rows between the cursor it started from and its current one, each once and in order, whatever the commit order; only a reset moves the start, and then rows already pruned are missing |
| FeedScope.ServedIff | internal/store/storedb/pull.sql.go:284-288 | in every run a row is served to a user exactly if it names an entity of that user or of nobody and its transaction is below every open one |
| FeedScope.NoForeignRowIsDelivered | internal/store/storedb/pull.sql.go:284-288 | no delivered row names an entity of another user |
| FeedScope.NoForeignEntityInAnyView | internal/sync/pull.go:386-430 | in every run, resets and pruning included, a client holds no entity of another user |
| FeedScope.ConvergedViewHolds | internal/sync/pull.go:386-430 | a converged view holds exactly the live entities that are the user's own or nobody's, as they are |
| FeedWrites.CommitPublishesTheLastWrite | internal/store/migrations/000026_sync_changelog.up.sql:99-119 | a transaction that commits publishes exactly its last write of each entity, under a row with its xid and that write's server_seq |
| FeedWrites.OnlyCommitsPublish | internal/sync/pull.go:268-314 | no other step, and no commit that has not written it, changes an entity |
| FeedWrites.EveryRowWasCommitted | internal/store/storedb/pull.sql.go:284-288 | in every run the transaction of each row ever logged committed |
| FeedDelivery.CommitAnnounces | internal/store/migrations/000026_sync_changelog.up.sql:99-119 | a commit announces every entity it changed beyond every client's cursor |
| FeedDelivery.NamedEntitiesExist | internal/sync/pull.go:395-402 | the "entity vanished" branch is never taken |
| FeedDelivery.Convergence | internal/sync/pull.go:295-314 | a client that starts empty, resetting any number of times, ends with exactly the live in-scope entities at the first last page served with no writer open, if nothing in its scope was already pruned when it last read from the beginning |
| FeedDelivery.ConvergenceWithoutPruning | internal/sync/pull.go:386-430 | in particular in every run without pruning |
| FeedReset.ResyncCompletesIff | internal/sync/pull.go:342-360 | re-reading from the beginning is not itself refused if and only if the first page ends at or past the horizon, or is the last |
| FeedReset.ResetRecoversIff | internal/sync/errors.go:28-41 | a client that drops its cursor and keeps what it holds recovers the server's state if and only if every entity in its scope has a surviving row or is already held as it is, and the first page clears the horizon |
| FeedReset.ResetRecoversIffInEveryRun | internal/sync/errors.go:28-41 | the same for every client of every run |
| FeedRuns.ResetCanStayStale | internal/sync/errors.go:28-41 | a run in which an issued cursor is refused and the reset client keeps a tombstoned entity and never learns of a live one |
| FeedRuns.ResetCanBeRefused | internal/sync/pull.go:342-360 | a run in which an issued cursor is refused and the cursor of the reset client's first page is refused too |
| FeedRuns.ChangelogIdOrderIsNotCursorOrder | internal/store/storedb/sync_retention.sql.go:34-43 | a run whose changelog_id order is not cursor order |
| Retention.IdOrderIsCursorOrderIff | internal/store/storedb/sync_retention.sql.go:34-43 | in every run changelog_id order is cursor order on the log if and only if no logged row was written after a row of a younger writer |
| Refusals.RefusedIff | internal/sync/pull.go:351-360 | in every run a nonzero cursor is refused if and only if a row of a younger transaction was pruned, or one of its own transaction and any with a higher server_seq |
| Refusals.RowsCarryTheirBeginning | internal/store/migrations/000029_sync_changelog_retention.up.sql:39 | in every run each row ever logged was created at the clock of the Begin step that drew its xid |
| Refusals.PrunedBeganBeforeACutoff | internal/sync/retention.go:114-189 | in every run the transaction of each pruned row began before the cutoff of some tick |
| Refusals.BatchIsTheOldest | internal/store/storedb/sync_retention.sql.go:95-101 | in every run a tick's batch has only rows of transactions begun before its cutoff, and misses one only if it is full of rows no newer in changelog_id |
| FeedRuns.ActiveClientCanBeRefused | internal/sync/retention.go:47-56 | a run in which a client is told there is more, one tick passes, and its next request is refused |
| PullService.Dedupe | internal/sync/pull.go:383-403 | the dedupe loop keeps the entities named by the page, in first-seen order, each with its current state |
| PullService.Assemble | internal/sync/pull.go:408-430 | the assembly loop puts each of them once under its type, as an upsert or a tombstone |
| PullService.ReadPage | internal/sync/pull.go:362-379 | fetching one row more and cutting back yields the page, its last position and whether rows remain |
| PullService.ServePage | internal/sync/pull.go:362-436 | the answer names the page's entities in their current state with the page's own next cursor |
| PullService.PullChanges | internal/sync/pull.go:315-437 | every request is a validation error, a refusal exactly below the horizon, or the right answer at the clamped limit |
| PullService.PageSizes | internal/sync/pull.go:326-332 | 200 rows by default, never more than 500 |
| PullService.ResponseRefreshes | internal/sync/pull.go:408-430 | applying the response by overwrite and delete is the one-step refresh convergence is proved for |
| PullService.TokenClientFollowsMachine | internal/store/cursor.go:92-125 | presenting the token of a cursor and applying the answer is one pull of the state machine |
| TokenClient.TokenRunFollowsMachine | internal/sync/pull.go:315-437 | through every run of server steps, requests and dropped tokens, a client that holds only a token and its entities has the machine client's cursor and view |
| TokenClient.TokenClientConverges | internal/sync/pull.go:295-314 | such a client, in every run without pruning, holds after the first last page answered with no writer open exactly the live entities of its user and of nobody |
| TokenClient.HolderHasNoForeignEntity | internal/sync/pull.go:386-430 | in every run, pruning and dropped tokens included, such a client has no entity of another user |
| Retention.RunKeepsIds | internal/store/storedb/sync_retention.sql.go:52-55 | changelog_id stays a key in every run |
| Retention.EveryReachableLogIsSound | internal/sync/retention.go:114-189 | what the pruner relies on holds of every reachable log |
| Retention.SelectPruneBatch | internal/store/storedb/sync_retention.sql.go:95-101 | the oldest aged rows by changelog_id, as many as the limit allows |
| Retention.Maxima | internal/sync/retention.go:158-170 | the loop finds the victims' ids and the two component maxima, each attained by some victim |
| Retention.Store.PruneOnce | internal/sync/retention.go:114-189 | one tick is the machine's prune of a valid batch with its maxima; a misconfigured pruner changes nothing |
| Retention.IdsSelect | internal/store/storedb/sync_retention.sql.go:57-63 | deleting by id removes exactly the selected rows |
| Retention.TickIsTwoSteps | internal/sync/retention.go:114-189 | a tick is a legal select step followed by a commit step |
| Activities.ReadPage | internal/activities/service.go:92-126 | limit clamping, one extra row and the next cursor, against the page function |
| Activities.List | internal/activities/service.go:50-127 | a request is answered exactly when it is valid, and with the page, token and has_more of the matching events |
| Activities.ValidRequestIff | internal/activities/service.go:50-90 | a request is answered if and only if its ids are UUIDs, its times are set, in order and at most 366 days apart, its precision is known and its cursor decodes |
| Activities.PageSizes | internal/activities/service.go:92-98 | 50 events by default, never more than 200 |
| Activities.CursorNamesLastRowIff | internal/activities/cursor.go:37-40 | the token a page hands back names its last row if and only if that row starts within the int64 nanosecond range |
| Activities.PagesMakeTheList | internal/activities/service.go:92-126 | pages of any sizes, chained through tokens, are the ordered list of matching events after the starting cursor; with as many pages as events nothing is left |
| Activities.FollowedListHolds | internal/store/storedb/activities.sql.go:173-186 | a list followed to its end holds, of the events past the zero cursor, exactly the user's untombstoned ones in range whose columns are as every filter asks |
| Activities.HasMoreIffRowsRemain | internal/activities/service.go:117-120 | has_more is true if and only if the next page is not empty |
| Activities.ListedFromTheBeginningIff | internal/activities/cursor.go:28-32 | a matching event is listed from the empty cursor if and only if its position is after the epoch and nil id |
| Activities.CursorPastInt64StartsOver | internal/activities/cursor.go:37-40 | whenever a page's last row starts past the int64 nanosecond range its cursor serves the list from the start again |
| Activities.PagingCanGoRoundInCircles | internal/activities/service.go:117-126 | with two such events a client asking for one at a time gets the first again and again with the same cursor |
| Trim.BlocksAreUnique | internal/reports/trim.go:46-60 | a union of intervals has one decomposition into separated blocks |
| Trim.SweepFindsBlocks | internal/reports/trim.go:46-60 | sweeping intervals sorted by start finds those blocks |
| Trim.AnySortedOrder | internal/reports/trim.go:45 | whichever order the unstable sort leaves equal starts in |
| Trim.ClipToWindow | internal/reports/trim.go:17-34 | the clipping loop keeps the non-empty intersections with the window |
| Trim.SortByStart | internal/reports/trim.go:45 | the in-place sort orders by start and permutes |
| Trim.MergeAndSum | internal/reports/trim.go:41-61 | the sorting sweep returns the whole seconds of the union's blocks, whatever the input order |
| TrimMeasure.ClipCovers | internal/reports/trim.go:17-34 | clipping keeps exactly the covered instants inside the window |
| TrimMeasure.ExactTrimming | internal/reports/trim.go:17-61 | the total is the number of covered seconds for whole-second times, each block rounded down otherwise, and never exceeds the window |
| TrimMeasure.OnlyTheUnionMatters | internal/reports/trim.go:36-61 | order, duplicates and how the union is cut into events do not matter |
| TrimMeasure.SplitAdditivity | internal/reports/dimension.go:228-236 | cutting a window loses nothing, or one second exactly when the cut splits a block into odd parts making up a second |
| TrimMeasure.PartitionAdditivity | internal/reports/dimension.go:228-236 | totals over any ordered partition add up, short by at most one second per inner cut, exactly for whole seconds |
| Window.SplitClosedOpen | internal/reports/window.go:37-81 | the closed window is day-aligned, ends by today's midnight and is the largest such; all windows are non-empty and in order |
| Window.DaysAreUtcDays | internal/reports/window.go:11-14 | a day starts at a multiple of 86,400 seconds |
| Window.WindowsPartition | internal/reports/window.go:23-36 | every instant of the range falls into exactly one window and no other instant into any |
| Reports.PerDeviceSeconds | internal/reports/trim.go:81-87 | a bucket's total adds up each device's trimmed seconds, devices untrimmed against each other |
| Reports.GroupRows | internal/reports/dimension.go:143-173 | the grouping loop holds, per bucket and device, exactly that device's intervals in row order |
| Reports.RawTotals | internal/reports/dimension.go:102-182 | the raw pass totals every bucket of the selected rows |
| Reports.CapDevices | internal/store/storedb/activities.sql.go:90-106 | per-device LEAST, then sum |
| Reports.TotalsForRange | internal/store/storedb/activities.sql.go:90-106 | the aggregate query caps each device at the window and adds up per bucket |
| Reports.MergeBuckets | internal/reports/dimension.go:33-46 | merging adds bucket by bucket |
| Reports.FastTotals | internal/reports/dimension.go:209-236 | closed aggregate and raw windows merged |
| DimensionReport.DimensionTotals | internal/reports/dimension.go:198-303 | whatever the filters, the report is the unfiltered report of the events they name: raw for the range if a filter is set the aggregate does not carry, otherwise aggregate and raw windows over the proved split |
| DimensionReport.FiltersSelect | internal/store/storedb/activities.sql.go:287-295 | the rows a query selects under filters are those it selects without among the events whose columns the filters name |
| DimensionReport.RawTotalsUnderFilters | internal/reports/dimension.go:102-182 | under any filters the raw totals are the exact seconds of the events the filters name |
| DimensionReport.FastReportUnderFilter | internal/reports/dimension.go:238-250 | on the fast path the report of one bucket is the whole report of the events in it |
| Reports.ToSortedSlice | internal/reports/service.go:89-96 | the breakdown is the same list for every map iteration order |
| Reports.SumSecondsOf | internal/reports/service.go:81-87 | the grand total adds up all buckets |
| ReportBounds.FilterCommutes | internal/reports/dimension.go:141-181 | filtering rows by one bucket before grouping is picking the bucket afterwards |
| ReportBounds.FilteredReport | internal/reports/dimension.go:238-250 | a filtered report is the unfiltered report restricted to the key, on the fast path too |
| ReportBounds.GrandTotalIsListed | internal/reports/service.go:168-184 | the grand total is the sum of the listed buckets |
| ReportBounds.LargestFirst | internal/reports/dimension.go:51-58 | the breakdown lists every bucket once, the largest first and equal ones by id |
| ReportBounds.LiveSpansByColumn | internal/reports/dimension.go:143-173 | a bucket's exact total measures exactly the untombstoned events of each device with that category, app or project |
| DeviceCap.CapBoundsExact | internal/reports/dimension.go:65-87 | a device's exact merged seconds never exceed the window, nor the cap by more than half a second per event, nor the cap at all if the rounded durations make up the whole seconds of the lengths or fill the window |
| DeviceCap.CapBoundsEveryPlacementIff | internal/reports/dimension.go:65-87 | events of given lengths stay under the cap however they are placed in a whole-second window if and only if their rounded durations do so |
| DeviceCap.WholeDurationsSuffice | internal/store/migrations/000011_create_activity_events.up.sql:11 | whole-second events always meet that condition |
| DeviceCap.CapIsExactIff | internal/store/storedb/activities.sql.go:90-106 | for whole-second events inside the window the cap is exact if and only if they do not overlap or they fill the window |
| DeviceCap.CapIsExactIffNothingLost | internal/store/storedb/activities.sql.go:90-106 | for any times, where the durations suffice, the cap is exact if and only if nothing is lost in rounding blocks, to tombstones, to overlaps or in rounding durations |
| ReportBounds.AggregateBoundsBucket | internal/store/storedb/activities.sql.go:90-106 | for any times and events across the edges, a bucket of the aggregate falls short of the exact total by at most half a second per event it holds and what earlier events cover of the window; and not at all if on every device the durations make up for both |
| ReportBounds.WholeTimesSuffice | internal/store/storedb/activities.sql.go:90-106 | they always do for whole-second times with nothing carried over from before the window |
| ReportBounds.AggregateIsExactIff | internal/store/storedb/activities.sql.go:90-106 | for whole-second times and events that keep to the window, a bucket is exact if and only if on every device the cap is tight and live events cover every instant tombstoned ones do |
| ReportBounds.AggregateIsExactIffNothingLost | internal/store/storedb/activities.sql.go:90-106 | for any times, a bucket on whose devices the durations suffice is exact if and only if no device loses anything on the way from the exact total to the cap |
| ReportSplit.ExactOverSplit | internal/reports/dimension.go:209-236 | for any times the exact total of a range is the sum over its windows plus the seconds lost at the cuts |
| ReportSplit.SplitLossIsFew | internal/reports/dimension.go:228-236 | those are at most one per device and inner cut, and none for whole-second times |
| ReportSplit.HybridBoundsExact | internal/reports/dimension.go:198-250 | for any times the report falls short of the exact total of a bucket over the whole range by at most what the aggregate leaves out and the seconds lost at the cuts; by the latter alone if the durations suffice; never for whole-second times with nothing carried over |
| ReportSplit.OpenRangeIsExactIff | internal/reports/dimension.go:209-236 | with no closed day in the range a bucket is exact if and only if no device loses a second at the cut |
| ReportBounds.SubSecondEventsFallThrough | internal/store/migrations/000011_create_activity_events.up.sql:11 | three events of 0.4 s that merge to one second count for none in the aggregate |
| ReportBounds.TombstonesStayInTheAggregate | internal/store/migrations/000035_create_daily_category_totals_cagg_v2.up.sql:6-13 | a tombstoned hour still counts in the aggregate and not in the raw pass |
| Lockout.UserRow.RecordFailedLoginAttempt | internal/store/storedb/login_lockout.sql.go:14-37 | the atomic UPDATE, whose expressions read the row as it was |
| Lockout.UserRow.CheckPassword | internal/auth/register_login.go:116-178 | a locked account is refused unchanged, a wrong password is recorded, a right one resets |
| Lockout.GuessingIsThrottled | internal/auth/register_login.go:118-178 | in any serial run, guess number n has cost n - threshold + 1 lockouts and comes at least the sum of their durations after guess number threshold; guesses during a lock change nothing |
| Lockout.GuessIsEvaluatedIff | internal/auth/register_login.go:118-150 | a further wrong password is evaluated if and only if the last evaluated guess's lock is over, and otherwise changes nothing |
| Lockout.RightPasswordAuthenticatesIff | internal/auth/register_login.go:118-178 | after any wrong passwords the right one authenticates if and only if that lock is over |
| Lockout.SuccessForgives | internal/store/storedb/login_lockout.sql.go:112-120 | and then the account is as new |
| Lockout.BoundIsAttained | internal/auth/register_login.go:118-178 | guessing at the very end of each lock attains the bound |
| Lockout.WaitsBeforeCap | internal/store/storedb/login_lockout.sql.go:27-30 | while below the maximum the waits add up to base * (2^k - 1) |
| Lockout.WaitsAfterCap | internal/store/storedb/login_lockout.sql.go:27-30 | beyond it every guess costs the full maximum |
| Lockout.DefaultPace | internal/auth/service.go:135-147 | with the defaults: 7 more guesses within 127 quarter hours, then one a day |
| Lockout.LockoutsUnderConcurrency | internal/store/storedb/login_lockout.sql.go:17-33 | over every interleaving with arbitrary clocks, lock windows are disjoint and later one after the other with doubling capped lengths; lockouts plus failures recorded inside a lock make up the attempts past the threshold, so the count reaches the serial bound if and only if none was |
| Lockout.NewWindowIff | internal/store/storedb/login_lockout.sql.go:17-33 | over every interleaving a failure opens a new window if and only if the threshold is reached and it comes at or after the end of the last one |
| RotationInvariants.StepKeeps | internal/auth/refresh_logout.go:94-143 | every lock, read, insert, commit, rollback and revocation step keeps chains, locks and read rows consistent |
| RotationInvariants.RotationIsSafe | internal/auth/refresh_logout.go:188-223 | over every interleaving no token is consumed twice, each family is one acyclic replaced_by chain in order of issue, and at most one token of a family is unrevoked |
| RotationInvariants.RotationExtendsLast | internal/store/storedb/refresh_tokens.sql.go:216-222 | under the row lock the guard of the rotating UPDATE never fails and the replacement is the family's newest token |
| RotationInvariants.RunGrows | internal/store/storedb/refresh_tokens.sql.go:216-222 | what is revoked or replaced stays so in every run |
| RotationRaces.NoReportAfterWaiting | internal/auth/refresh_logout.go:124-132 | in no run does a refresh that got its row lock after waiting report reuse |
| RotationRaces.LoserCanOnlyRollBack | internal/auth/refresh_logout.go:124-132 | a refresh that waited and found its token revoked can only roll back, leaving every token as it is |
| RotationRaces.RevokedTokenIsReportedAtOnce | internal/auth/refresh_logout.go:134-143 | one that found the row free and the token revoked can report reuse, and then revokes exactly the family's unrevoked tokens |
| RotationRaces.UnrevokedTokenIsRotated | internal/auth/refresh_logout.go:188-223 | one that gets an unrevoked token consumes exactly that and puts in one that continues its family and device |
| RotationRaces.RevocationTargets | internal/store/storedb/refresh_tokens.sql.go:166-200 | a revocation is out for exactly the unrevoked tokens of its family or device |
| RotationRaces.RevocationRevokes | internal/store/storedb/refresh_tokens.sql.go:166-200 | its commit revokes those and changes nothing else about any token |
| RotationRaces.WinnerKeepsItsToken | internal/auth/refresh_logout.go:94-132 | a run of two refreshes of one token: the loser can only roll back and the winner's token stays live |
| RotationReach.FamilyRevocationKillsIff | internal/store/storedb/refresh_tokens.sql.go:166-181 | in every run, a revocation of a family on a reuse report or logout leaves it without a usable token if and only if no rotation of it committed between the start and the commit of the revocation, or another revocation had already killed it |
| RotationReach.DeadStaysDead | internal/auth/refresh_logout.go:124-143 | a family without an unrevoked token gets none in any later interleaving |
| RotationReach.ReuseReportCanMissAToken | internal/auth/refresh_logout.go:134-143 | a run in which reuse is reported, the family revoked, and its newest token stays usable |
| Sessions.AuthService.IssueTokenPair | internal/auth/register_login.go:248-284 | whatever the device had is revoked, then one token of a new family issued |
| Sessions.AuthService.ResolveDevice | internal/auth/register_login.go:197-233 | a named live device of the caller is reused, otherwise a new one created |
| Sessions.AuthService.LogIn | internal/auth/register_login.go:181-190 | the tables after a successful password check |
| Sessions.AuthService.RefreshToken | internal/auth/refresh_logout.go:71-226 | every branch of a refresh run alone: unknown, reused, expired, user or device gone, bad input, rotated |
| Sessions.AuthService.LogOut | internal/auth/refresh_logout.go:344-377 | the family is revoked for its owner, a foreign token is treated as unknown |
| Sessions.AuthService.RevokeOneDevice | internal/auth/users_devices.go:159-196 | device and tokens revoked together, or neither |
| Sessions.OneActiveTokenPerDevice | internal/auth/register_login.go:235-284 | after any run no device has two unrevoked tokens, and a successful call leaves exactly the one it returned |
| Sessions.TokenLivesThirtyDays | internal/auth/refresh_logout.go:145-148 | whatever was called since, a token refreshes if and only if it is unrevoked and no more than 30 days old |
| Sessions.RefreshAnswers | internal/auth/refresh_logout.go:71-226 | when a refresh reports reuse, succeeds, or is refused for its input or its token, and that a refusal changes nothing |
| Sessions.EntryAnswers | internal/auth/register_login.go:17-64 | a registration is refused for a user there is, and otherwise adds the user with one live device |
| Sessions.LoginUsesTheNamedDevice | internal/auth/register_login.go:197-233 | a login naming a live device of the user adds none and issues for it; any other adds exactly one |
| Sessions.ForeignCallsAreRefused | internal/auth/refresh_logout.go:364-368 | a logout of another user's token and the revocation of another user's device are refused and change nothing |
| Sessions.OthersAreLeftAlone | internal/store/storedb/refresh_tokens.sql.go:166-200 | every call leaves alone all tokens but those of its device or family, and all devices but the one it adds or revokes |
| Sessions.NoAcceptanceAfterKill | internal/auth/refresh_logout.go:124-143 | after a reuse report or a logout no token of the family, old or new, is ever accepted |
| Sessions.RevokedDeviceIsSilent | internal/auth/users_devices.go:159-196 | a revoked device never becomes live again and nothing bound to it ever refreshes |
| Sessions.SerialRefreshIsUncontendedRotation | internal/auth/refresh_logout.go:188-223 | lock, insert and commit with nobody else about leave the tables the serial call leaves |
| Push.PushService.ApplyActivityEvent | internal/sync/service.go:164-274 | validation, insert, tombstone and the result reported |
| Push.PushService.ApplyFocusSession | internal/sync/service.go:276-387 | validation, clamp, upsert and the result reported |
| Push.PushService.PushBatch | internal/sync/service.go:108-162 | items take effect one by one in order; a failure leaves exactly the items before it applied |
| PushHistory.AppliedIffChanged | internal/sync/service.go:247-273 | an item is reported applied exactly when it changed the stored rows |
| PushHistory.EventOnlyGainsTombstone | internal/store/storedb/sync.sql.go:256-261 | whatever is pushed, a stored event keeps every column but the tombstone, whose value is the OR of all pushes of the key |
| PushHistory.EventIsFirstPushWithOrOfTombstones | internal/store/storedb/sync.sql.go:172-186 | an event is the first accepted push of its key, deleted if any was a tombstone |
| PushHistory.LastWriteWins | internal/store/storedb/sync.sql.go:306-328 | after any history the stored session is its first owner's first push attaining the greatest clamped updated_at |
| PushHistory.TwoPushesCommuteIff | internal/store/storedb/sync.sql.go:306-328 | two pushes commute from every state if and only if they are order-free |
| PushHistory.OrderDoesNotMatter | internal/store/storedb/sync.sql.go:306-328 | pairwise order-free pushes end in the same rows under every permutation |
| PushHistory.SessionPushesCommute | internal/sync/service.go:328-344 | a user's sessions with distinct timestamps, from any devices, end in the same rows whatever the order and times they arrive at, each within the skew on arrival |
| PushHistory.ReplayIsInvisible | internal/sync/service.go:141-161 | pushing again what was pushed changes nothing and reports nothing applied, whatever anyone pushed in between |
| PushHistory.RetryResumes | internal/sync/service.go:141-161 | retrying a failed batch continues where it stopped and reports nothing of the first part applied, whatever anyone pushed in between and whatever apps and categories are looked up anew |
| PushHistory.RetriesEndTheSame | internal/sync/service.go:141-161 | any number of attempts, each at its own time, with its own catalog and broken off anywhere, and then a complete push are one complete push, if what each attempt got to means the same then and at the end |
| PushHistory.PrefixThenWholeIsWholeOnce | internal/sync/service.go:108-162 | a prefix of a batch and then the batch is the batch once, with the prefix's sessions in skew and its lookups the same both times |
| PushHistory.SessionReplayIsNoOpIff | internal/sync/service.go:324-338 | an applied session pushed again later is a no-op if and only if it was in skew both times |
| PushHistory.NoPushTouchesAnotherUser | internal/sync/service.go:128-134 | no push, complete or broken off, creates, changes or removes another user's row |
| PushItems.BatchIsItsItems | internal/sync/service.go:141-161 | a batch adds its items to the history, those before the failure if it fails |
| PushItems.StoredEventIff | internal/sync/service.go:164-274 | after any history an event is stored exactly if some accepted item of its user named it, tombstoned exactly if one said so |
| PushItems.StoredEventIsTheFirst | internal/sync/service.go:201-229 | its columns are those of the first such item, its source the device's platform, its app and category the catalog's |
| PushItems.StoredSessionIff | internal/sync/service.go:276-387 | after any history a session is stored exactly if some accepted item named it; its columns are those of its owner's item filed latest, and earliest among equals |
| PushItems.EventAnswer | internal/sync/service.go:247-273 | an accepted event is a duplicate exactly if it is stored and not tombstoned anew |
| PushItems.SessionAnswer | internal/sync/service.go:346-386 | an accepted session is forbidden for another user's id, a duplicate against a row filed no earlier, applied otherwise |
| PushItems.ForeignProjectIsRefused | internal/sync/service.go:301-319 | a session naming a project that is not the caller's is refused as such and stores nothing |
| PushItems.RejectedItemsStoreNothing | internal/sync/service.go:141-161 | any other item is invalid and stores nothing |
| PushItems.OnlyOwnLiveDevicesPush | internal/sync/service.go:108-139 | only a live device of the user's may push, and a refused batch changes nothing |
| PushItems.ResultsAreInOrder | internal/sync/service.go:141-161 | the result at a position is what the item there met after those before it |

## Left out

- HTTP routing, middleware, metrics, configuration, JSON and DTO formatting, names and bundle ids carried along in report buckets: no property beyond formatting.
- Argon2, JWT, RSA, SHA-256, random tokens: hashes, tokens, device and family ids are distinct opaque numbers drawn from counters.
- The CRUD services for projects, tags, categories and focus sessions, profile updates and device renaming: easy members that repeat the keyset lemmas.
- The nil-Pool fallbacks (`refreshNoTx`, `revokeDeviceNoTx`, a pull without a transaction): weaker guarantees.
- The six per-type lookups of `resolveChangelogEntry` are one keyed lookup over the snapshot; two activity events with one event_id and different started_at are assumed not to exist, and an entity is named by (owner, type, id).
- The pruner's own xid is not a step of the machine: it can only hold xmin down, as a writer that begins and aborts does.
- Widths: xid8 wrap-around, int32 counters, float overflow of the doubling and the float rounding of `Seconds()`; times are integers, and the microsecond resolution of stored timestamps is not modelled. The int64 wrap of `UnixNano` is.
- SQL execution: a query's ORDER BY is the function `Keyset.Sorted`, its LIMIT a prefix; database errors other than those named in a signature are not modelled.
- Report bucket ids are numbers with 0 for the empty key; canonical UUID text sorts in the same order.
- Two report endpoints, `Daily` and `projectTotals`: the same functions called with other arguments.
- Login's email and device validation, unknown emails and password-less accounts, and soft-deleted users, who would be refused like unknown ones.
- Serial calls in `Sessions` only: READ COMMITTED interleavings of the multi-row revokes with rotations are in `RotationInvariants`, where the per-device claim is not made.
- Constraint violations raised by rows that vanish during a push, the creation of catalog apps, and the server_seq echoed for sessions: the catalog is fixed during a batch, though not between batches, and its lookups succeed.
- FeedDelivery.Convergence: states the final view for the first last page served while no writer is open; with writers open the view is only current up to what is still announced.
- ReportBounds.AggregateIsExactIff: for whole-second times and events that keep to the window; for other times `ReportBounds.AggregateIsExactIffNothingLost` applies where the durations suffice. Where they do not, devices may offset one another and no condition is given.
- Retention.IdOrderIsCursorOrderIff: a row's server_seq and changelog_id are drawn in one step; a writer overtaken between the two draws is not modelled.
- TokenClient.TokenClientConverges: for runs without pruning; with pruning the condition is that of `FeedDelivery.Convergence`.
- Activities.PagesMakeTheList: for ranges within the int64 nanosecond range, outside which it is false, as `Activities.CursorPastInt64StartsOver` shows.

# Momento, verified

A Dafny 4.11 model of the parts of Momento that must agree with something simpler or
that run as protocols, with proofs of the properties they are there for. Run
`dafny verify dfyconfig.toml` to check all of it.

**Ingestion** (`Events`, `Derived`, `Folds`, `Agreement`, `Ordered`, `Ingestion`,
`Late`, `Repairs`, `Restored`, `Arrivals`, `Inbox`, `Collector`, and, for several workers at once,
`Workers`, `Rows`, `Isolation`, `Serial`, `Overtaken`). A raw event is a record, the
stored rows are a sequence in insertion order, and every derived table is a map.
`Derived` is the rebuild: a pure function of the raw rows, one aggregate expression per
column. `Folds` is what the collector's upserts do to one row at a time, and the first
main result is that the two agree: on counts and times for every arrival order, on the
other columns for rows that arrived in order, with the exact condition where `linked_at`,
revenue, a session's visitor or the user of a session, visitor session or daily session differs. `Late` says what the
order-sensitive columns hold when events come late. `Repairs` and `Restored` add
rebuilds that run between deliveries. `Inbox` is one worker's transaction on values and
`Collector` the statements themselves on a store updated in place, with savepoints, proved
against the same functions.

Several workers drain the inbox at once at READ COMMITTED. `Workers` is that run seen from
the inbox; its tables are a reference, what the committed jobs would leave one after
another. `Rows` has the derived tables as single rows and the twelve statements of an event
as a program over them; `Isolation` interleaves those statements, each reading the snapshot
it began with, waiting for rows other transactions hold and updating their latest version,
with savepoints and crashes. The counts are right after every commit of every run. The full
tables are those of a serial run exactly when no two open transactions may hold events of
one visitor (`Serial`, `Overtaken`).

**Segments** (`Like`, `Sql`, `Segment`, `SegmentReading`, `SegmentMeaning`). A rule tree compiles to a
predicate with positional arguments, evaluated in three-valued logic, and optionally to
named aggregates. The class in `Segment` is the compiler with its two growing lists;
`SegmentReading` is what a tree says, written without the compiler's helpers, and
`SegmentMeaning` proves that what the compiler emits means that.

**Concurrency** (`SharedReads`, `Discovery`, `Parallel`). Three step systems whose
steps are the source's own: what happens under the mutex is one step, and cancellation
can come between any two.

**Metrics** (`Metrics`, `MetricValues`, `MetricMeaning`). The registry of definitions that
refer to each other, its save-time check, the evaluator that pushes filters down to the
events, and what each kind of metric is worth, read off the events.

**Reports** (`Funnel`, `Attribution`, `Alerts`, `Timeline`, `Visits`, `Baseline`). The
greedy closed funnel, attribution weights and credit, the alert lifecycle, keyset
paging, visit grouping and the median baseline.

Numbers: counts and milliseconds are integers, timestamps are integers in microseconds,
money is in millionths, and weights, rates, medians and measures are reals. Calls into
libraries and the database's own operators are parameters: the local date of an instant,
number parsing and printing, lower-casing, trimming, the numeric reading of a text, what
the driver binds for a number a count cannot equal, the aggregate of a group, the decay of a touch, the order of session ids.

Where the code does not do what its own words suggest, the model follows the code:

- `linked_at` is the first time of the final user in the rebuild, and the start of that
  user's last run in the collector (`Ordered.LinkedAtAgreesExactly`,
  `Ingestion.ReturnIsLinkedAgain`).
- An amount that is not a plain decimal, like 1e3, counts in the collector and not in the
  rebuild (`Agreement.RevenueAgreesExactly`, `Ingestion.RevenueEqualsRebuild`).
- The collector writes a visitor's user into sessions that never named anyone, and the
  rebuild does not; the rows agree exactly when the session's own rows name the same user
  (`Ingestion.SessionUserAgreesExactly`, `Ingestion.VisitorSessionAgreesExactly`).
- Running several workers is not always like running one: two transactions that hold events
  of one visitor can leave an earlier session of that visitor without its user
  (`Overtaken.SerialExactly`). Counts and times are not affected
  (`Isolation.EveryRunAgreesWithRebuild`).
- `traffic.internal` is a boolean column, so a segment that tests it for being present, or
  with contains, startsWith, endsWith or an order, compiles and is then refused by the
  database (`SegmentMeaning.CompilePreservesMeaning`, `SegmentMeaning.InternalFlagRefused`).
- A prefix does not by itself keep two compiled segments from colliding: the names are
  written without quotes, so the database ignores letter case and keeps 63 bytes, and a
  prefix that ends in digits can meet another's numbers. Prefixes that differ in lower case
  within 63 bytes and end in no digit never collide (`SegmentMeaning.PrefixesCollideExactly`).
- A shared answer may have been computed before the request that is given it arrived:
  exactly when the leader's handler had returned by then
  (`SharedReads.SharedAnswerIsOlderExactly`).
- A saved metric can stop evaluating when a metric it refers to is redefined
  (`MetricValues.RedefinitionCanBreakReferrers`).
- A windowed funnel of two or more steps can miss an entity that has a chain of events
  (`Funnel.CompleteExactly`).
- An alert that opens is not always announced: one that closes and reopens on one day
  reopens silently (`Alerts.OpeningAnnouncedExactly`, `Alerts.ReopenedSameDayIsSilent`).
- Two visits of different visitors can be shown as one when a visitor id contains the
  separator (`Visits.KeysMeetExactly`).

## Model

| member | source | states |
|---|---|---|
| `Agreement.ActiveMsAgrees` | internal/service/collector.go:792-818 | the collector and the rebuild read the same active milliseconds from every event whose seconds are whole, capped at an hour, zero for anything negative |
| `Agreement.RevenueAgreesExactly` | internal/insight/revenue.go:18-26 | one purchase is worth the same to the collector and to the rebuild exactly when no property has a reading only one of them accepts |
| `Agreement.ScientificAmountSplits` | internal/insight/revenue.go:18-26 | an input where the two differ: a value of 1e3 counts a thousand in the collector and nothing in the rebuild |
| `Agreement.SessionsStep` | internal/service/collector.go:683-719 | folding one event into sessions keeps times, counts, active time and `engaged` equal to the rebuild over the grouped rows |
| `Agreement.VisitsStep` | internal/service/collector.go:586-600 | folding one event into visitors, or into a day's visitors, keeps first and last seen and both counts equal to the rebuild |
| `Agreement.DaysStep` | internal/service/collector.go:623-633 | folding one event into the daily metrics keeps the counts equal to the rebuild and the revenue equal to the sum of the collector's own readings |
| `Agreement.UsersStep` | internal/service/collector.go:550-584 | after every event each visitor, visitor session and daily visitor row carries the user the identity table names, rows older than the link included |
| `Ordered.JourneyStep` | internal/service/collector.go:690-717 | for a session whose events arrived in order, one more event keeps landing and exit page, source, medium, campaign, device and merged properties equal to the rebuild |
| `Ordered.IdentitiesStep` | internal/service/collector.go:550-564 | for a visitor whose events arrived in order, one more event keeps the identity's user, first and last seen equal to the rebuild |
| `Ordered.LinkedAtAgreesExactly` | internal/service/derived.go:118-134 | `linked_at` agrees with the rebuild exactly unless the visitor was reassigned away from its final user and back |
| `Ingestion.KeptAlways` | internal/service/collector.go:460-546 | from empty tables, every arrival sequence keeps every agreement stated in this module |
| `Ingestion.TalliesEqualRebuild` | internal/service/derived.go:99-205 | for every arrival order the folded and the rebuilt tables have the same rows and the same counts, times, heartbeats, interactions and `engaged`, for any threshold |
| `Ingestion.RevenueEqualsRebuild` | internal/insight/revenue.go:18-26 | a day's folded row is the rebuilt one plus what the collector alone reads from split purchases, so the two agree exactly when those amounts sum to zero |
| `Ingestion.UnsplitDayEqualsRebuild` | internal/insight/revenue.go:18-26 | a day without a split purchase has the rebuilt row |
| `Ingestion.VisitorEqualsRebuild` | internal/service/derived.go:99-104 | a visitor whose events arrived in order has the whole rebuilt row, user and latest properties included |
| `Ingestion.IdentityEqualsRebuild` | internal/service/derived.go:118-134 | an identity whose events arrived in order has the rebuilt user, first and last seen, and the rebuilt `linked_at` exactly unless reassigned |
| `Ingestion.SessionEqualsRebuild` | internal/service/derived.go:148-180 | a session whose events arrived in order has the rebuilt counts and journey, and names its last visitor where the rebuild names its first, so they agree exactly when these two are one |
| `Ingestion.DayVisitorEqualsRebuild` | internal/service/derived.go:189-196 | a daily visitor row is the rebuilt row when the visitor's events arrived in order |
| `Ingestion.DaySessionEqualsRebuild` | internal/service/derived.go:198-205 | a daily session row of one visitor is the rebuilt row when that visitor arrived in order |
| `Ingestion.DaySessionOfSeveral` | internal/service/derived.go:198-205 | a daily session in order with any visitors: the fold names the last and the rebuild the first, and both expose the last one's user once it is identified |
| `Ingestion.DaySessionUserAgreesExactly` | internal/service/collector.go:647-653 | for in-order visitors it exposes the latest user of its last visitor or, where that one was never identified, the user it had before its last event; so its user is the rebuilt one exactly when that is the latest identified user among its rows |
| `Ingestion.DaySessionUserDiffers` | internal/service/derived.go:198-205 | an input where it is not: a visitor identified only after another took its session over |
| `Ingestion.SessionUserAgreesExactly` | internal/service/collector.go:683-719 | a session of one in-order visitor exposes that visitor's user as of the session's last event, so its user is the rebuilt one exactly when the session's own rows name that user as their latest |
| `Ingestion.VisitorSessionAgreesExactly` | internal/service/collector.go:571-573 | a visitor session of an in-order visitor exposes the visitor's latest user over all sessions, so the row is the rebuilt one exactly when its own rows name that user as their latest |
| `Ingestion.SessionUserDiffers` | internal/service/collector.go:699 | inputs where the session's user differs: one identified and one anonymous event of one visitor in two sessions |
| `Ingestion.VisitorSessionUserDiffers` | internal/service/collector.go:571-573 | the same inputs, in order, leave two different visitor_sessions rows |
| `Ingestion.ReturnIsLinkedAgain` | internal/service/collector.go:555-559 | an input where `linked_at` differs: a visitor identified as one user, then another, then the first again |
| `Late.RememberedAlways` | internal/service/collector.go:550-719 | whatever the arrival order: a session's landing page is that of the last row that was the earliest so far when it came and has one, or else of the first row with one; its exit page and each property come from the rows that were the latest so far, its source, medium, campaign and device from the first row with one; a visitor has the properties of the last row that was the latest so far and had any; and an identity's user, `linked_at` and times are those of the identified rows that were no earlier than any row since the first identified one |
| `Late.EarliestPageIsLanding` | internal/service/collector.go:697 | in every arrival order, if a session's strictly earliest row is a page view with an address, its landing page is that address |
| `Late.LatestRowIsExit` | internal/service/collector.go:698-716 | in every arrival order, if a session's last row by timestamp and arrival is a page view with an address, its exit page is that address, and every property that row carries has its value |
| `Late.LatestPropsStay` | internal/service/collector.go:586-648 | an older event never replaces the properties of a visitor or of its day: those of the last row by timestamp and arrival, if it has any, stay |
| `Late.LatestUserStays` | internal/service/collector.go:550-562 | an older identify event never replaces the user: if the visitor's last row by timestamp and arrival is identified, the identity names its user |
| `Repairs.SiteRebuildRestores` | internal/service/derived.go:35-69 | after a site rebuild every row of the site is the rebuilt one in every table and column, although the daily statements read the identities just filled, and no row of another site moved |
| `Repairs.RangeRebuildRestores` | internal/service/derived.go:16-32 | after a date-range rebuild the daily rows of the range, both ends included, are the rebuilt ones with the user the identities name at that moment or else the latest of the row, and nothing else in any table moved |
| `Repairs.RepairsAreTransparent` | internal/service/derived.go:16-97 | however deliveries, site rebuilds and date-range rebuilds follow one another, the tables agree with the rebuild on every order-free column |
| `Repairs.AlwaysCounted` | internal/service/derived.go:16-97 | the invariant behind it, kept by deliveries and rebuilds alike |
| `Restored.AlwaysNamed` | internal/service/derived.go:16-97 | the invariant behind it for order-sensitive columns, kept by deliveries and rebuilds alike |
| `Restored.VisitorsRestored` | internal/service/derived.go:16-97 | however deliveries and rebuilds follow one another, a visitor that arrived in order has the rebuilt visitor row and daily visitor rows, every column |
| `Restored.IdentitiesRestoredInOrder` | internal/service/derived.go:118-134 | and in its identity the rebuilt user, first and last seen, and the rebuilt `linked_at` unless it was reassigned away from its user and back, when it can only be later |
| `Restored.SessionsRestoredInOrder` | internal/service/derived.go:148-180 | a session that arrived in order has the rebuilt counts and journey and names its first visitor, as the rebuild does, or its last |
| `Restored.SessionUsersRestored` | internal/service/derived.go:148-180 | the user of a session of one in-order visitor is the rebuilt one or the visitor's as of the session's last event, whatever deliveries and rebuilds came between |
| `Restored.VisitorSessionsRestored` | internal/service/derived.go:142-146 | a visitor session of an in-order visitor has the rebuilt times, and the rebuilt user or the visitor's latest |
| `Restored.AlwaysTold` | internal/service/derived.go:16-97 | the invariant behind these two and the visitor |
| `Restored.DaySessionsRestoredInOrder` | internal/service/derived.go:198-205 | a daily session of one in-order visitor is the rebuilt row |
| `Restored.DaysRestoredWhole` | internal/insight/revenue.go:18-26 | a day without split purchases has the rebuilt row, revenue included |
| `Arrivals.ArrivalOrderDoesNotMatter` | internal/service/collector.go:590-719 | two arrival orders of the same events leave the same rows in every table, with the same counts and times, and the same visitors identified |
| `Arrivals.RedeliveryDoesNotMatter` | internal/service/collector.go:498-500 | delivering events again, any number of times and in any order, leaves the same rows, counts and times |
| `Inbox.RunJobsSound` | internal/service/collector.go:336-405 | any batch of claimed rows, with any of them failing, keeps: tables are the fold of the raw rows, one raw row per acceptance, no row finished twice, dead exactly at ten failures |
| `Inbox.InsertAllSound` | internal/service/collector.go:460-546 | one payload adds to accepted plus duplicates exactly its number of events, and to accepted exactly its new raw rows, with the blocked count spent once |
| `Workers.CommitIsSerial` | internal/service/collector.go:336-405 | what a transaction decided about its rows before its commit is what running its jobs one after another on the then committed rows decides |
| `Rows.StageCounts` | internal/service/collector.go:550-719 | one statement, on whatever snapshot it reads, counts its event in its own table and leaves every order-free column elsewhere as it was |
| `Isolation.NextKeeps` | internal/service/collector.go:336-405 | every step of every worker, one statement at a time at READ COMMITTED, keeps the invariant: with its own rows a transaction counts the committed events and exactly its own so far, and no two hold one row |
| `Isolation.EveryRunAgreesWithRebuild` | internal/service/collector.go:336-546 | at every state of every interleaved run the committed rows agree with the rebuild from the committed raw events on every order-free column, and daily revenue is the sum of the collector's readings |
| `Isolation.EveryRunIsSound` | internal/service/collector.go:336-405 | over every interleaved run with crashes and failing jobs: ingested at most once or dead at most once and never both, dead exactly at ten failures, accepted equals raw rows, accepted plus duplicates equals the events of ingested rows |
| `Isolation.CommitsSettleSerially` | internal/service/collector.go:336-405 | a commit leaves raw rows, inbox and quality counts as running its jobs one after another on what was then committed would, whatever ran in between |
| `Isolation.OnlyCommitsShow` | internal/service/collector.go:337-405 | committed derived rows change at commits only, by exactly the transaction's own rows |
| `Isolation.FailedJobLeavesNoTrace` | internal/service/collector.go:367-396 | however many statements of a job ran and whatever others did meanwhile, its failure leaves the transaction the rows and raw events it had when the job began |
| `Serial.ApartIsSerial` | internal/service/collector.go:550-719 | in a run that never has two open transactions hold events of one visitor, the committed rows are the serial fold in every table and column |
| `Serial.ApartCommitsAreSerial` | internal/service/collector.go:336-405 | in such a run every commit, derived rows included, is a serial run of its jobs |
| `Overtaken.SerialExactly` | internal/service/collector.go:336-405 | for every policy on which visitors two open transactions may share: all runs it allows leave the serial fold exactly when it allows no visitor to be shared |
| `Overtaken.Overtakes` | internal/service/collector.go:565-591 | the run behind it: an identify event overtakes the uncommitted first session of its visitor, both commit, and that session's visitor_sessions row stays without a user |
| `Collector.Store.UpdateVisitorIdentity` | internal/service/collector.go:550-584 | the identify statement and the relinking statements give exactly the specified identity and relink exactly the visitor's rows |
| `Collector.Store.FoldEvent` | internal/service/collector.go:515-540 | the statements of one new event, in their order, are one step of the fold, whose columns `Agreement`, `Ordered` and, for late events, `Late` state on the raw rows |
| `Collector.Store.ProcessOne` | internal/service/collector.go:407-548 | a payload either ends with all its events ingested as specified or fails at some statement |
| `Collector.Store.ProcessRow` | internal/service/collector.go:367-402 | one job inside its savepoint is one step of the specification, wherever its statements fail |
| `Collector.Store.ProcessBatch` | internal/service/collector.go:336-405 | one batch claims at most a hundred due rows in id order and is a serial run of their jobs; a sound store stays sound |
| `Collector.Store.RebuildSite` | internal/service/derived.go:35-69 | the deletes and inserts of a site rebuild, in their order, leave exactly the specified tables |
| `Collector.Store.RebuildDaily` | internal/service/derived.go:16-32 | the deletes and inserts of a daily rebuild leave exactly the specified tables |
| `Like.ContainsIsSubstring` | internal/segment/segment.go:398-416 | for all texts, the contains pattern around the escaped value matches exactly the texts that contain the value |
| `Like.StartsWithIsPrefix` | internal/segment/segment.go:256-257 | the startsWith pattern matches exactly the texts that begin with the value |
| `Like.EndsWithIsSuffix` | internal/segment/segment.go:258-259 | the endsWith pattern matches exactly the texts that end with the value |
| `Like.LiteralMatchesOnlyItself` | internal/segment/segment.go:404-416 | an escaped value alone matches itself and nothing else |
| `Like.EmittedPatternsWellFormed` | internal/segment/segment.go:398-416 | no emitted pattern ends in an escape with nothing to quote |
| `Like.AnyCaseForms` | internal/segment/segment.go:251-259 | under ILIKE the three forms ask the same of the lower-cased texts, for any lower-casing that leaves the syntax characters alone |
| `Like.UnescapedMatchesMore` | internal/segment/segment.go:407-413 | without the escaping a pattern takes a text that does not contain the value |
| `Sql.SelectedIsOwnAggregate` | internal/segment/segment.go:287-331 | membership in the grouped subquery is the measure of the row's own entity, for entities that have a row there |
| `Sql.FoldIsEvery` | internal/segment/segment.go:190-212 | parts joined by AND or OR in three-valued logic hold when every, or some, part does |
| `Segment.Compiler.Compile` | internal/segment/segment.go:185-271 | the recursive compiler leaves exactly the specified arguments, names and predicate, or the specified error |
| `Segment.Compiler.CompileAggregate` | internal/segment/segment.go:306-338 | appends site, environment and value and compares the measure with the last of them, inline or under a new name |
| `Segment.Compiler.CompileEvents` | internal/segment/segment.go:340-377 | event.has with one or many trimmed, valid names |
| `Segment.Compiler.CompileDimension` | internal/segment/segment.go:221-270 | every operator on a dimension, its one argument, and its refusals |
| `SegmentMeaning.CompilePreservesMeaning` | internal/segment/segment.go:185-271 | under any longer argument list and any WITH list that binds its names, the predicate gives every row the verdict of the tree's direct reading, which shares no helper with the compiler, and fails on every row exactly when some rule pairs the boolean `traffic.internal` with a text operator or a value that is no boolean, or a count with a number the driver refuses |
| `SegmentMeaning.CompileHoisted` | internal/segment/segment.go:156-183 | the entry point: compiles exactly the valid trees, keeps the arguments already bound, binds each of its names once exactly when they fit in 63 bytes, and answers for the segment wherever it is placed |
| `SegmentMeaning.InternalFlagRefused` | internal/segment/segment.go:222-225 | the failing input: `traffic.internal exists` compiles, and no row gets a verdict |
| `SegmentMeaning.WholeNumbersAsWritten` | internal/segment/segment.go:287-331 | where every number compared with a count is a whole one of 64 bits, the verdict does not depend on the driver, and there is one exactly when the flags are readable |
| `SegmentMeaning.FractionAgainstCount` | internal/segment/segment.go:287-331 | any other number against a count gives no verdict if the driver refuses it, and otherwise the verdict of the rule with the number the driver makes of it |
| `SegmentMeaning.GroupsInWords` | internal/segment/segment.go:190-212 | a compiled group whose combinator reads "and" in any letter case is true of a row exactly when every rule of it is, one that reads "or" exactly when some rule is and all have a verdict |
| `SegmentMeaning.AggregatesInWords` | internal/segment/segment.go:287-331 | a compiled aggregate rule is true exactly when the person has rows at the site and environment and the measure over them stands to the number as =, !=, <, <=, > or >= say, equality included or excluded |
| `SegmentMeaning.NumbersInWords` | internal/segment/segment.go:260-267 | the same for <, <=, > and >= on a dimension that reads as a number |
| `SegmentMeaning.AcceptsExactlyValid` | internal/segment/segment.go:185-271 | a tree compiles exactly when it is well formed, by rules that share no helper with the compiler, whatever was bound before |
| `SegmentMeaning.Grown` | internal/segment/segment.go:185-271 | succeeding or failing, a compilation only appends |
| `SegmentMeaning.HoistsFaithfully` | internal/segment/segment.go:173-183 | hoisted and inline compilation bind the same arguments and give the same error, or the same predicate once the names are replaced by their queries |
| `SegmentMeaning.HoistedAndInlineAgree` | internal/segment/segment.go:156-183 | hoisted and inline predicates give every row the same verdict, or none exactly when some rule cannot be answered |
| `SegmentMeaning.OwnNamesBind` | internal/segment/segment.go:332-337 | as the database reads them, the names of one compilation are distinct and bind their own queries exactly when there is one of them or the longest fits in 63 bytes |
| `SegmentMeaning.PrefixesCollideExactly` | internal/segment/segment.go:170-172 | two compilations in one statement can produce the same name exactly when their prefixes, in lower case and cut at 63 bytes, are equal or one is the other followed by the start of a number |
| `SegmentMeaning.PrefixesWithoutDigitsNeverCollide` | internal/segment/segment.go:332-337 | prefixes the database tells apart and that end in no digit never collide |
| `SegmentMeaning.CaseDoesNotSeparate` | internal/segment/segment.go:332-337 | two prefixes that differ in letter case only do collide |
| `SegmentMeaning.UsesExactlyItsOwn` | internal/segment/segment.go:185-271 | inline or hoisted, the predicate with the queries its compilation named mentions every argument it appended and no other |
| `SegmentMeaning.InlineUsesExactlyItsOwn` | internal/segment/segment.go:156-163 | inline, the predicate mentions them all itself |
| `SharedReads.StepKeeps` | internal/httpapi/shared_reads.go:85-130 | every step of every interleaving keeps the invariant |
| `SharedReads.EveryRunIsSafe` | internal/httpapi/shared_reads.go:85-130 | in every state of every run: at most one leader per key, no flight closed twice or while in the map, and exactly one response from every finished waiter neither cancelled nor panicked |
| `SharedReads.OneLeaderPerKey` | internal/httpapi/shared_reads.go:88-107 | at most one leader per key has its flight in the map |
| `SharedReads.ClosedOnceAndRemoved` | internal/httpapi/shared_reads.go:110-119 | a flight is closed once, and a closed flight is in no entry |
| `SharedReads.SharedOnlyFromGoodFlights` | internal/httpapi/shared_reads.go:90-105 | a copied response comes from a flight that was in the map when the waiter joined, whose leader was uncancelled and had not failed when it set the outcome, and is what that leader wrote to its own client |
| `SharedReads.FinishedWaiterWroteOnce` | internal/httpapi/shared_reads.go:88-106 | a finished waiter wrote exactly one response unless it was cancelled or its own handler panicked |
| `SharedReads.SomeoneCanMove` | internal/httpapi/shared_reads.go:85-130 | an unfinished request has a step to take or waits for a leader that has one |
| `SharedReads.StepsRunOut` | internal/httpapi/shared_reads.go:85-130 | every step but arrivals and cancellations brings one request closer to its end |
| `SharedReads.SharedAnswerIsOlderExactly` | internal/httpapi/shared_reads.go:88-129 | in every run, the answer a request copies was recorded by the one Serve of its flight's leader, and before the request arrived exactly when that leader's handler had already returned when it joined |
| `SharedReads.AnswerMayPredateArrival` | internal/httpapi/shared_reads.go:110-129 | a run up to the copy in which the answer is the older one |
| `Discovery.StepKeeps` | internal/httpapi/mcp_oauth.go:195-248 | every step of every interleaving keeps the invariant |
| `Discovery.EveryRunIsSafe` | internal/httpapi/mcp_oauth.go:195-248 | in every state of every run: at most one discovery per issuer in flight, no waiter with an abandoned outcome, no expired failure answered from the cache |
| `Discovery.OneInFlight` | internal/httpapi/mcp_oauth.go:195-248 | at most one discovery per issuer is in flight |
| `Discovery.NobodyReturnsAbandoned` | internal/httpapi/mcp_oauth.go:201-205 | nobody but the leader returns an abandoned outcome, and a failure from the cache was still believed |
| `Discovery.RetriesAreForAbandoned` | internal/httpapi/mcp_oauth.go:221-230 | a caller never waits twice on the same attempt, and waits again only after one abandoned by a cancelled leader |
| `Discovery.NewAttemptOnlyAfterExpiry` | internal/httpapi/mcp_oauth.go:199-219 | a new attempt follows only an abandoned one, or a failure stamped at least thirty seconds before |
| `Discovery.SuccessIsForever` | internal/httpapi/mcp_oauth.go:199-219 | once a discovery succeeded every later state holds the same success |
| `Discovery.NoDiscoveryAfterSuccess` | internal/httpapi/mcp_oauth.go:199-219 | after a success every look is answered from the cache |
| `Discovery.FinishedHasHistory` | internal/httpapi/mcp_oauth.go:239-246 | in every run a finished attempt holds what its leader discovered, is believed for thirty seconds after its leader stamped it, and is abandoned exactly when it failed and its leader had been cancelled when it judged the outcome |
| `Discovery.CancelledExactly` | internal/httpapi/mcp_oauth.go:221-226 | in every run a caller counts as cancelled exactly when the run cancelled it |
| `Discovery.TimeIsTicks` | internal/httpapi/mcp_oauth.go:243 | the time a stamp reads is what the ticks of the run add up to |
| `Discovery.SomeoneCanMove` | internal/httpapi/mcp_oauth.go:195-248 | a caller that has not returned has a step to take or waits for a leader that has one |
| `Parallel.NeverMoreThanLimit` | internal/insight/parallel.go:23-31 | in every state of every run at most the limit is running, one when the limit is below one |
| `Parallel.ResultMeaning` | internal/insight/parallel.go:54-61 | at return nothing is running, and the result is nil exactly when every non-nil step ended without error and the caller's context lives |
| `Parallel.ReturnedErrorIsFirst` | internal/insight/parallel.go:47-61 | the error returned is the first recorded, and without one it is the caller's cancelled context |
| `Parallel.ResultToldBySteps` | internal/insight/parallel.go:49-61 | against the run itself: nil exactly when the caller's context was never cancelled and every non-nil step returned without an error; otherwise an error some step returned or, if none did, the cancelled context |
| `Parallel.NeverStuck` | internal/insight/parallel.go:36-54 | until the result is there the runner has a step to take |
| `Parallel.AlwaysReturns` | internal/insight/parallel.go:36-61 | every step of the runner brings the result closer |
| `Metrics.SaveKeepsAcyclic` | internal/httpapi/platform_governance.go:354-384 | a save keeps the graph of all stored references free of cycles, though it checks only active metrics reachable from itself |
| `Metrics.SavesKeepSound` | internal/httpapi/platform_governance.go:421-495 | so does every sequence of saves, redefinitions and deprecations included, and every reference leads to a stored, valid definition |
| `Metrics.NeverReturns` | internal/httpapi/platform_governance.go:354-384 | a walk that starts at a metric just saved never comes back to it |
| `Metrics.Catalogue.Save` | internal/httpapi/platform_governance.go:421-495 | the upsert: refused exactly when a check fails and then without effect, otherwise the new version, with the registry still sound |
| `MetricValues.PushDown` | internal/httpapi/platform_governance.go:536-566 | a filter added to a definition is the same as filtering the events first, refusals included |
| `MetricValues.SavedMetricEvaluates` | internal/httpapi/platform_governance.go:448-495 | a metric just saved evaluates without a nesting, cycle or missing-reference error |
| `MetricValues.StoredEvaluatesExactly` | internal/httpapi/platform_governance.go:536-566 | in every registry saves can reach, a stored definition evaluates without such an error exactly when saving it again would be accepted |
| `MetricValues.RedefinitionCanBreakReferrers` | internal/httpapi/platform_governance.go:448-495 | saving can break what refers to it: three accepted saves after which an older metric no longer evaluates |
| `MetricValues.Where` | internal/httpapi/platform_governance.go:568-613 | the conditions and arguments of a leaf's query select exactly the events that fit and pass every filter |
| `MetricMeaning.EvaluateIsMeaning` | internal/httpapi/platform_governance.go:536-645 | pushing filters down through ratios and references computes the direct reading of every definition, leaves included: which events count, their number, sum, average or distinct users and sessions, read off the events themselves |
| `MetricMeaning.ValidExactly` | internal/httpapi/platform_governance.go:292-352 | the validation accepts exactly the well-formed definitions, field by field |
| `MetricMeaning.AcceptedExactly` | internal/httpapi/platform_governance.go:421-470 | a save is accepted exactly for a well-formed name and definition whose references all resolve |
| `MetricMeaning.CountsAndSumsAdd` | internal/httpapi/platform_governance.go:624-645 | a count or a sum over two stretches of events is the sum of the two |
| `MetricMeaning.OneEvent` | internal/httpapi/platform_governance.go:624-645 | one event counts one if chosen, and sums to its number, the fallback's where the property is missing, or to zero |
| `MetricMeaning.AverageBalances` | internal/httpapi/platform_governance.go:632-645 | an average times the number of events it reads is their sum, lies between any bounds on the numbers read, and is zero when there are none |
| `MetricMeaning.UsersCountOnce` | internal/httpapi/platform_governance.go:624-629 | one more event adds one to the unique users exactly when it is chosen and no chosen event has its user |
| `MetricMeaning.SessionsCountOnce` | internal/httpapi/platform_governance.go:624-629 | and one to the unique sessions exactly when no chosen event has its session |
| `MetricMeaning.OftenEnough` | internal/httpapi/platform_governance.go:614-623 | with a minimum, exactly the users, or sessions, with that many chosen events count |
| `MetricMeaning.RatioBalances` | internal/httpapi/platform_governance.go:540-553 | a ratio times its denominator is a hundred times its numerator, both over the events the ratio's filters keep; zero over a zero denominator, refused exactly when a part is |
| `Funnel.ReachedExactly` | internal/httpapi/analytics.go:1209-1229 | without a window an entity reaches a step exactly when some time-ordered choice of its events does, at the earliest possible time |
| `Funnel.ReachedHasChain` | internal/httpapi/analytics.go:1209-1229 | with or without a window, whoever is counted has a chain of events that ends at the recorded time |
| `Funnel.ReachedIsGreedy` | internal/httpapi/analytics.go:1209-1229 | windowed or not, an entity reaches a step exactly when, and at the time that, the chain of earliest events does, each no earlier than the one before and within the given minutes of it |
| `Funnel.CompleteExactly` | internal/httpapi/analytics.go:1217-1229 | the greedy match counts everyone it should exactly without a window or for one step |
| `Funnel.NeverWidens` | internal/httpapi/analytics.go:1230-1239 | step counts of a closed funnel never increase |
| `Funnel.WindowOnlyLoses` | internal/httpapi/analytics.go:1222-1227 | a window never adds an entity and never makes a time earlier |
| `Funnel.OpenIsWider` | internal/httpapi/analytics.go:1226-1236 | the open mode counts at least as many at every step as the closed one, and as many at the first |
| `Funnel.ScanRates` | internal/httpapi/analytics.go:1248-1275 | each row carries its count; its step rate times the count of the row before is a hundred times its own count, its overall rate times the first count likewise, and a rate over zero is zero |
| `Funnel.ClosedRates` | internal/httpapi/analytics.go:1256-1274 | in the rows of a closed funnel every rate lies between 0 and 100, and a hundred times an overall rate is the step rate times the overall rate of the row before |
| `Attribution.WeightsSumToOne` | internal/insight/attribution.go:44-71 | for every model and every non-empty path the weights are not negative and sum to exactly one |
| `Attribution.FirstTouchWins` | internal/insight/attribution.go:45 | first touch gives everything to a touch that no other precedes by start and session |
| `Attribution.LastTouchWins` | internal/insight/attribution.go:46 | last touch gives everything to a touch that precedes no other |
| `Attribution.LastNonDirectWins` | internal/insight/attribution.go:47 | last non-direct touch gives everything to a touch with channel information that is the latest of those, or to the last touch when there is none |
| `Attribution.LinearSharesEqually` | internal/insight/attribution.go:48 | linear: every touch earns one divided by the number of touches |
| `Attribution.EndsEarnMost` | internal/insight/attribution.go:49 | position based: the two ends of a path of three or more earn 0.4 each and the others share 0.2 equally; two touches earn half each, one everything |
| `Attribution.CreditsDecay` | internal/insight/attribution.go:51 | time decay: credits are in the ratio of the decays, with the half-life asked for from 1 to 90 days and 7 days otherwise |
| `Attribution.AnyHalfLife` | internal/insight/attribution.go:54-71 | whatever half-life is requested, the one used keeps the weights not negative and summing to one |
| `Attribution.CreditIsConversions` | internal/insight/attribution.go:217-225 | the credit given out is the number of conversions that have a touch |
| `Attribution.GroupedConserves` | internal/insight/attribution.go:217-222 | grouping by source, medium and site loses no credit |
| `Attribution.Fold` | internal/insight/attribution.go:251-279 | the loop gives each channel and each site exactly its rows' credit, the total, and the credit of the other sites |
| `Attribution.ReportConserves` | internal/insight/attribution.go:251-279 | channel credit, site credit and the total are all the attributed conversions, and with the unattributed ones all conversions |
| `Alerts.AlertTable.Apply` | internal/insight/anomaly_state.go:121-165 | every row becomes what the transition says, and exactly the announced transitions are returned, once per metric |
| `Alerts.AnnotateStates` | internal/insight/anomaly_state.go:75-116 | each metric that changes is listed once, with its change |
| `Alerts.RecoveryBetweenNews` | internal/insight/anomaly_state.go:75-165 | two announcements of a new alert have a recovery announced between them |
| `Alerts.FirstDetectedFixed` | internal/insight/anomaly_state.go:139-144 | the first-detected date stays as long as no recovery is announced |
| `Alerts.OncePerDay` | internal/insight/anomaly_state.go:133-138 | whatever is notified and in whatever order days are evaluated, a metric is announced as new or ongoing at most once a day |
| `Alerts.OpeningAnnouncedExactly` | internal/insight/anomaly_state.go:130-147 | an alert that opens is announced exactly unless the metric was already announced for that day or a later one |
| `Alerts.ReopenedSameDayIsSilent` | internal/insight/anomaly_state.go:130-147 | an opening that is not announced: an alert closed and opened again within one day |
| `Timeline.FollowIsEverything` | internal/httpapi/visitor_trace.go:310-341 | following the cursor to the end returns the whole window, each event once, newest first, however many share a timestamp |
| `Timeline.NextCursorResumes` | internal/httpapi/visitor_trace.go:275-281 | what lies beyond the next cursor is exactly what the page left unread |
| `Timeline.CursorFalls` | internal/httpapi/visitor_trace.go:213-233 | each page strictly lowers the cursor, and the next request accepts it |
| `Timeline.InsertsNeverRepeat` | internal/httpapi/visitor_trace.go:310-341 | rows inserted between pages never cause a repeat: everything read stands in strictly descending order |
| `Timeline.EverythingThereIsRead` | internal/httpapi/visitor_trace.go:310-341 | with inserts too, every event that was there at the start is read by the last page |
| `Timeline.FirstPageCoversWindow` | internal/httpapi/visitor_trace.go:213-214 | the first request covers the window up to just before its end |
| `Timeline.RequestStaysInWindow` | internal/httpapi/visitor_trace.go:213-233 | whatever cursor is sent, what is read comes from the window; a cursor before its end leaves exactly the rows below it, any other is ignored |
| `Timeline.TimestampAloneExactly` | internal/httpapi/visitor_trace.go:207-212 | a cursor without a row id loses nothing exactly when no unread event shares its timestamp |
| `Visits.Group` | internal/httpapi/visitor_trace.go:352-392 | one page becomes one visit per key, with the times, counts, landing and exit page of exactly its events |
| `Visits.VisitsShareOutPage` | internal/httpapi/visitor_trace.go:352-392 | every event of the page is in one visit, once |
| `Visits.VisitSays` | internal/httpapi/visitor_trace.go:352-392 | a visit has the times of its first and last event, the numbers of its page views and conversions, the address of its first page view that has one and that of its last page view |
| `Visits.KeysMeetExactly` | internal/httpapi/visitor_trace.go:360 | two events of different visits go under one key exactly when a visitor id runs on through the separator into the other's session id |
| `Visits.PlainVisitorsNeverMeet` | internal/httpapi/visitor_trace.go:360 | events whose visitor ids are without the separator share a key exactly when visitor and session are the same |
| `Visits.VisitsAreSessions` | internal/httpapi/visitor_trace.go:352-392 | so with such ids every visit holds exactly the page's events of one visitor's session |
| `Baseline.MedianIgnoresOrder` | internal/insight/anomaly.go:104-115 | the median is independent of the order of the values |
| `Baseline.MedianIsMiddle` | internal/insight/anomaly.go:104-115 | the median is the middle of any ascending arrangement of the values, or halfway between the two in the middle |
| `Baseline.SpreadIsScaledMiddle` | internal/insight/anomaly.go:117-128 | the spread is 1.4826 times the middle of the ascending distances from the center |
| `Baseline.MedianResistsOutliers` | internal/insight/anomaly.go:104-115 | replacing strictly fewer than half of the values leaves the median between two untouched ones |
| `Baseline.MedianStaysInRange` | internal/insight/anomaly.go:104-115 | so it stays inside any range that holds the untouched values |
| `Baseline.OutliersCannotHide` | internal/insight/anomaly.go:104-181 | outliers in fewer than half of the days cannot hide a bad day: a bad value 3.5 units beyond the range of the other days stays critical, the unit being 1.4826 times that range or the floor |
| `Baseline.BaselineFor` | internal/insight/anomaly.go:83-102 | the same weekday of the last eight weeks, or the recent days when there are fewer than three |
| `Baseline.DetectAnomaly` | internal/insight/anomaly.go:130-181 | the baseline is the median of the history, the unit the largest of the spread, a tenth of the baseline and one, the robust z times the unit the deviation, and the verdict the grade of the deviation at 2.5 and 3.5 units, so that a critical one is a bad deviation of at least 3.5 times the larger of one and a tenth of the median; nothing is computed without a value or with fewer than three days |

## Left out

- Ingestion.SessionUserAgreesExactly: for sessions of one visitor and for visitors that arrived in order; out of order the folded user is still the identity's as of the session's last event (`Ingestion.SessionUserAsOfLast`), which the latest raw row need not name.
- Ingestion.TalliesEqualRebuild: compares revenue separately, because a non-decimal amount is read differently on the two sides, and holds for whole active seconds only.
- Collector.Store.ProcessBatch: availability times and backoff enter only as the set of due rows; the statements that count duplicates and move inbox rows are assumed to succeed, as a failure there abandons the whole batch.
- Workers.CommitIsSerial: its derived tables are the reference a serial run leaves; the rows the interleaved statements write are those of `Isolation`.
- Isolation.NextKeeps: the statements that count quality, move inbox rows and write dead letters run at the commit here; their rows only ever hold totals. A deadlock, which the database breaks by failing one statement, is a failed job or a lost transaction, both of which can happen at any step. A statement that has to wait for several rows gets them at one moment. The statements that count distinct dimension values can make an event of the same day and environment wait earlier than here.
- Repairs.RepairsAreTransparent: order-free columns only; `Restored` has the others.
- Restored.SessionUsersRestored: says which two users a session can have, not which deliveries and rebuilds lead to which; so do Restored.SessionsRestoredInOrder for its visitor and Restored.IdentitiesRestoredInOrder for a `linked_at` that may be later.
- Metrics.SavesKeepSound: saves are sequential; the check and the upsert are not one transaction in the source, so two saves at once are outside it.
- Funnel.CompleteExactly: says for which settings the greedy match misses nobody, not which entities a given window loses.
- Alerts.AlertTable.Apply: the writes are assumed to succeed, each metric is detected at most once per evaluation as the watch list guarantees, and the days an alert has been open and the evidence text are not modelled.
- Baseline.DetectAnomaly: dates are whole days; labels, directions, percentages and evidence text are not modelled.
- Retention deletion and privacy scrubbing: raw rows expire while rollups stay, so the agreement with the rebuild is stated without them.
- What happens before an event reaches the fold: schema checks, privacy filters, PII masking, event id generation and the replacement of implausible timestamps.
- The identified-users table, cardinality counters, the per-day split of quality counts and the queue of late-event rebuilds.
- SegmentMeaning.PrefixesCollideExactly: a character of a prefix counts as one byte, and a prefix is assumed to begin a name the database accepts without quotes.
- The SQL text itself, the alias of the outer row, and the expressions behind each built-in dimension; every dimension but `traffic.internal` is a nullable text of the row, that one a boolean that is never null.
- How the driver turns a number that is no 64-bit integer into one where a count is compared with it, which is a parameter; a bound list of texts is read one by one where a list of booleans is expected.
- Planner hints, statistics, timeouts and connection handling, which do not affect results.
- The recorder's headers and the header that marks a shared response.
- Time zones and daylight saving: the local date is an uninterpreted function.
- Floating-point rounding, NaN and infinities.
- ILIKE lower-casing that changes the number of characters.
- Reading conversions, credits and paths at slightly different moments; the attribution report is stated on one snapshot.
- HTTP routing, JSON decoding, audit writes, role checks, the console and the build files.

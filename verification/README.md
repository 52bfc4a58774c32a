# Verified model of the C3X pricing API

This project models the stateful and algorithmic heart of the C3X pricing API
(a Go service that scrapes cloud price lists into PostgreSQL and serves them
over GraphQL) and proves what its design promises. `dafny verify dfyconfig.toml`
checks everything.

## What is modelled

**The scrape protocol** (`ScrapeStore`, `ScrapeMachine`, `ScrapeInvariants`,
`ScrapeSafety`, `ScrapeRefinement`, `ScrapeCleanup`, `ScrapeLoss`, `ScrapeRun`,
`BatchUpsert`). Any number of processes scrape any vendors over one database.
Every database statement and every local decision is one step; handler calls of
one run overlap; processes crash, runs are reaped and pruned, marks in the
UNLOGGED `scrape_seen` table get lost, and the seed command writes without lock
or marks. `Inv` holds after every history. The main theorem,
`ChangedOnlyRefinesTouchAll`, says that skipping unchanged rows and keeping a
seen-set stores the same products as the design it replaced, which rewrote every
row and deleted by timestamp alone. It holds under three conditions on events
(`Orderly`): a live run is not reaped, its marks are not lost, and its vendor is
not seeded between the start of the run and the end of its cleanup. The vendor
lock is not assumed but modelled: mutual exclusion is part of `Inv`. What is
assumed is that a lock is held until its session ends, that the database clock
advances with each timestamping statement, and that a product hash belongs to
one vendor (`owner`). `ScrapeRun` writes `runOneScrape` out as imperative code
and proves that every run of it is a history of this machine.

**The scrapers inside the protocol** (`ScrapeFanout`, `ScrapeJoint`,
`ScrapeDiscovery`, `ScrapeCoverage`, `ScrapeSynthesis`): the AWS, Azure and GCP scrapers as state machines whose
goroutines interleave with each other, with the database and with every other
process. A joint history is a history of the protocol in which one process takes
its scraping steps from its scraper: a fetched batch is delivered, written chunk
by chunk and marked; a failed fetch or handler call is counted or ends the run as
that scraper's code has it. So `CleanupMeansComplete` and `CleanupMeansMarked`
speak of services and regions: when the cleanup fires, every one of them was
fetched, and what is marked is exactly what was fetched and synthesised.

**GraphQL document analysis** (`QueryDocument`): the depth and introspection
walks over possibly cyclic fragment graphs, with their shared mutable `visited`.
A cyclic document violates section 5.5.2.2 of the GraphQL specification (October
2021), but these walks run before that validation.

**Request budget** (`RequestBudget`): reserve and refund under every
interleaving of resolvers.

**Gzip response writer** (`GzipWriter`): buffering, pass-through and
compression, with gzip (RFC 1952) as any lossless streaming codec.

**Query builder and paging** (`ProductQuery`, `ProductPaging`): from filter to
numbered clauses, and from clauses to pages.

**Rate limiter LRU** (`RateLimiters`), **Azure price slots** (`AzurePrices`) and
**GCP machine types** (`GcpMachineTypes`, prices as exact rationals).

## Where code and documentation differ

- `CHANGELOG.md:75-76` says cleanup is skipped if the seen-set is lost or
  incomplete. The guard only asks for half of the ingested count
  (`cmd/server/main.go:376-378`), so a run that loses up to half of its marks
  passes it. `HalfLostMarksDeleteLiveProducts` exhibits such a run for any two
  products, and `AllDeliveredSurviveIff` gives the exact condition under which no
  delivered product goes; a mark count equal to the number of distinct
  delivered hashes is enough.
- `cmd/server/main.go:286-290` lists "no per-service failures" as a guard. A GCP
  service that discovery should have named is no failure when discovery fails
  (`internal/scraper/gcp.go:89-94`) or succeeds without it (`:216-230`, a name that
  was renamed or removed). It is then not scraped, the guards pass, and the cleanup
  deletes its products (`MissedServiceIsDeleted` exhibits the run). The guards
  protect a set of services exactly when each is among the services to scrape
  (`GcpCleanupCoversIff`); for the static and the discoverable list together, that
  is exactly when each discoverable name is static too, or discovery succeeded and
  listed it (`ListedServicesCoveredIff`).
- `internal/scraper/gcp.go:162-164` says discovery hands on partial results when a
  page fails. Its caller discards them (`Discovery`).
- `internal/scraper/gcp.go:455-457` says the last matching SKU wins; the code
  keeps the least price (`IsIndex`), and the model follows the code.
- `internal/scraper/azure.go:313` calls the duplicate pass exact. Its key joins
  fields with a bar. A row is told apart from all rows whatsoever exactly when none
  of its five key fields contains a bar (`ExactKeyFixesFieldsIff`); rows the scraper
  can receive have numbers for start and price, so not every row with a bar has
  such a double among them. On a list the pass is exact exactly when no two of its
  rows clash (`DeduplicationIsExactIff`).
  `SeparatorInFieldConfusesSlots` has two rows, formatted as the code formats
  them, of which one loses its price.
- `internal/scraper/azure.go:327-328` promises one price per (purchase option,
  start, term). The key is joined in the same way; the promise is kept exactly
  when no two tiers share a key (`TierDeduplicationIff`), and two tiers can
  (`SeparatorInFieldMergesTiers`).
- `internal/scraper/azure.go:228` keys products by product, SKU and meter name and
  region, joined in the same way. Every product holds just its own rows exactly when
  no two rows that differ in one of the four share a key (`OwnRowsIff`), and two can
  (`SeparatorInNameMergesProducts`): the second product is then missing and its
  prices stand under the first (`OwnProductIff`).
- A value pattern of a slash with no slash further on, or only the one right
  after it, comes out empty and adds no clause (`PatternIsDroppedIff`), so it
  selects everything.

## Model

| member | source | states |
|---|---|---|
| BatchUpsert.DecidingOccurrenceIsStored | internal/db/queries.go:572-604 | for every sent hash the stored sku, attributes and prices are those of its first occurrence in the last chunk that contains it, whichever design writes |
| BatchUpsert.DesignsMean | internal/db/queries.go:636-660 | one statement on the rows: rewriting stamps every sent hash and stores its first occurrence; skipping does the same unless sku, attributes and prices are all equal, and then leaves the row as it was |
| BatchUpsert.SomeOccurrenceDecides | internal/db/queries.go:572-604 | every sent hash has such a deciding occurrence |
| BatchUpsert.OnlySentHashesChange | internal/db/queries.go:636-645 | hashes that were not sent keep their whole row and none is invented |
| BatchUpsert.IdentityIsSetAtInsert | internal/db/queries.go:636-645 | vendor, region, service and family stay those of the first insert |
| BatchUpsert.TimestampMarksChange | internal/db/queries.go:651-660 | updated_at is kept exactly when every chunk carrying the hash carries the stored content, and then the row is untouched |
| BatchUpsert.Chunks | internal/db/queries.go:571-587 | consecutive chunks cover the list, hold at most 1000 products, and all but the last are full |
| BatchUpsert.Deduplicate | internal/db/queries.go:595-604 | exactly the products before which no product has their hash are kept, one per hash |
| BatchUpsert.BuildInsert | internal/db/queries.go:611-634 | row i has the placeholders 8i+1 to 8i+8, bound to its hash, sku, vendor, region, service, family, attributes and prices in that order; at most 65535 in all |
| ScrapeStore.Store.Exec | internal/db/queries.go:636-649 | a statement repeating a hash is rejected; otherwise the table becomes the statement's effect |
| ScrapeStore.Store.UpsertBatch | internal/db/queries.go:590-649 | a chunk of up to 1000 fails only when the database does, and otherwise has the statement's effect |
| ScrapeStore.Store.UpsertProducts | internal/db/queries.go:571-588 | stores exactly the chunks before the first failing statement |
| ScrapeStore.Store.AcquireScrapeLock | internal/db/db.go:101-128 | succeeds exactly when no session holds the vendor's lock |
| ScrapeStore.Store.ReleaseScrapeLock | internal/db/db.go:117-126 | gives up that lock only |
| ScrapeStore.Store.Now | cmd/server/main.go:233-236 | reads the advancing database clock |
| ScrapeStore.Store.BeginRun | internal/db/db.go:133-140 | inserts a running row of the vendor with count 0 and no finish time under a fresh id; every other row stays |
| ScrapeStore.Store.FinishRun | internal/db/db.go:144-158 | rewrites status, count and finish time of that id, whatever its status was |
| ScrapeStore.Store.Prune | internal/db/db.go:167-180 | drops exactly the rows that finished before the cutoff, running rows never; nothing at retention zero |
| ScrapeStore.Store.ReapStale | internal/db/db.go:184-193 | fails exactly the running rows started before the cutoff |
| ScrapeStore.Store.RecordSeen | internal/db/queries.go:667-685 | adds the batch's hashes to the run's marks |
| ScrapeStore.Store.DropSeen | internal/db/queries.go:690-701 | drops the run's marks and those of runs that are not running |
| ScrapeStore.Store.PreviousCount | cmd/server/main.go:292-296 | 0 if no run of this vendor succeeded; otherwise the count of a successful run of this vendor whose finish time no other success of this vendor exceeds |
| ScrapeStore.PreviousCountMeans | cmd/server/main.go:292-296 | the same of every count the query may answer, also where several successes finished at the same time |
| ScrapeStore.LatestSuccessMeans | cmd/server/main.go:292-296 | a run is a latest success if and only if it is of that vendor, succeeded, has finished, and no other such run finished later |
| ScrapeStore.Store.CountSeen | cmd/server/main.go:361-365 | the number of distinct marks of the run |
| ScrapeStore.Store.DeleteStale | internal/db/queries.go:708-719 | deletes the vendor's rows that are neither new nor marked and reports how many |
| ScrapeSafety.ActSparesOthers | internal/db/queries.go:690-719 | a process acting for one vendor leaves rows and live marks of every other vendor's process alone |
| ScrapeSafety.StepKeepsInv | cmd/server/main.go:220-351 | every event, crashes, reaping and lost marks included, keeps mutual exclusion, distinct runs, marks within stored rows and the cleanup guards |
| ScrapeSafety.StepKeepsSynced | cmd/server/main.go:255-279 | every orderly event keeps fresh rows, marks and open calls in step |
| ScrapeSafety.InvAlways | cmd/server/main.go:220-351 | the invariant holds after every history |
| ScrapeSafety.SyncedAlways | cmd/server/main.go:220-351 | the synchronisation holds after every orderly history |
| ScrapeRefinement.UpsertAgrees | internal/db/queries.go:651-660 | skipping an unchanged row stores the same content as rewriting it |
| ScrapeRefinement.StaleAgrees | internal/db/queries.go:703-714 | at cleanup time the seen-set and the timestamp design delete the same rows |
| ScrapeRefinement.HistoriesAgree | internal/db/queries.go:636-719 | related states stay related through every orderly history |
| ScrapeRefinement.ChangedOnlyRefinesTouchAll | internal/db/queries.go:636-719 | from any table, after every orderly interleaving both designs store the same products and the same run records |
| ScrapeCleanup.CleanupKeepsExactlyTheDelivered | cmd/server/main.go:247-279 | when a cleanup fires the marks are the delivered hashes, the vendor is left with exactly those, and no other vendor's row changes |
| ScrapeCleanup.DeliveredIsWhatWasDelivered | cmd/server/main.go:256-279 | the recorded set is the union of the batches handed to the handler |
| ScrapeCleanup.CountedAlways | cmd/server/main.go:359-371 | the counted marks are still there when the delete runs, if none is lost in between |
| ScrapeCleanup.CleanupLeavesHalf | cmd/server/main.go:286-378 | whatever was lost before the count, a cleanup leaves at least max(1, half of the ingested) rows |
| ScrapeCleanup.CleanupComparesWithLatest | cmd/server/main.go:291-320 | a run that cleans up asked before for a successful run of its own vendor that none of its successes finished after, and if the query answered, it ingested at least half of what that run had recorded |
| ScrapeCleanup.NoSuccessIsEmpty | cmd/server/main.go:198-207 | no history records an empty success, so the vendor status is never "empty" |
| ScrapeLoss.AllDeliveredSurviveIff | cmd/server/main.go:353-378 | in every reachable state, marks lost or not: no delivered product goes exactly when every unmarked one was rewritten by this run; equal counts suffice |
| ScrapeLoss.HalfLostMarksDeleteLiveProducts | cmd/server/main.go:376-378 | for any two products of a vendor there is a run with half its marks lost that passes every guard and deletes a delivered product |
| ScrapeRun.UpsertAll | internal/db/queries.go:571-588 | the code of the batched upsert takes the machine's upsert steps up to the first failing chunk, and removes nothing |
| ScrapeRun.Handle | cmd/server/main.go:256-279 | the handler upserts, then marks, then counts; it succeeds exactly if every chunk and the mark went through |
| ScrapeRun.CleanTallyIff | cmd/server/main.go:281-290 | the failure counters are clean exactly if every move of the scraper went well; what was delivered is the union of its batches |
| ScrapeRun.TallyMeans | cmd/server/main.go:256-290 | said of the moves: there is an error exactly if some move was fatal, a failure is counted exactly if some move was a swallowed one, the total is the number of products of the batches that stood |
| ScrapeRun.Scrape | cmd/server/main.go:281-284 | any sequence of batches, failures and breakdowns is a history, and the code's counters are the ones that sequence calls for |
| ScrapeRun.DeleteIfSeenSetComplete | cmd/server/main.go:359-372 | the delete runs exactly if the count is had, at least one distinct hash and at least half of the ingested number was delivered, and the statement succeeds, and then leaves exactly the delivered products |
| ScrapeRun.JudgeRun | cmd/server/main.go:286-334 | empty runs fail; the cleanup ran exactly if nothing failed, something was ingested, the count did not halve and the mark count passes |
| ScrapeRun.Conclude | cmd/server/main.go:336-351 | the outcome is recorded, after a success no run row older than the window is left, the run's marks are gone, the lock is released, no product changes |
| ScrapeRun.OutcomeRule | cmd/server/main.go:220-348 | said of the world and the rows: the run reports an error exactly if clock, run row or some fatal move failed, succeeds exactly if there is none and something was ingested, records that status and that count, and prunes every older row after a success |
| ScrapeRun.CleanupRule | cmd/server/main.go:286-378 | the cleanup ran if and only if no move failed, the count and the delete went through, something and at least half of the last success of this vendor was ingested, and the distinct hashes are at least half of it; then the vendor has exactly the products ingested |
| ScrapeRun.RunOneScrape | cmd/server/main.go:220-351 | whatever fails, the run is a history of the machine that touches no other vendor's row and gives the lock back; its results and its run row tell exactly what failed; the cleanup ran if and only if it should have and then left exactly the delivered products; without it no product goes; after a success old run rows do |
| ScrapeFanout.GcpTargets | internal/scraper/gcp.go:86-103 | static services win on conflict; discovered ones are added only when discovery succeeded |
| ScrapeFanout.StepKeepsAccounts | internal/scraper/azure.go:86-110 | in every interleaving the counter of a task group equals its failed tasks, and what AWS collects is what its tasks fetched |
| ScrapeFanout.TaskFate | internal/scraper/azure.go:86-110 | over every interleaving the end of a task tells what happened to it: done means its batch was fetched and, if it had products, passed the handler; failed or broken means a fetch or handler call of this task failed, as the scraper's policy has it |
| ScrapeFanout.FailedFetchFate | internal/scraper/azure.go:90-98 | a failed fetch of Azure or GCP is counted as a failed service, unless the context was cancelled before or a handler call of another task failed before: then its error ends the scrape |
| ScrapeFanout.FanStepKeepsSound | internal/scraper/aws.go:152-429 | stage by stage, a scraper goes on only when everything before it passed, reports an error only for one of five reasons, and otherwise a counter that is that of all groups |
| ScrapeFanout.ReportsErrorIff | internal/scraper/aws.go:152-429 | a scraper that is over reports an error if and only if the API key was missing (GCP), a task or the call between the groups broke, the region index failed, or some region failed and no region that came through delivered a product |
| ScrapeFanout.QuietIsComplete | internal/scraper/aws.go:195-429 | a report without error and with counter zero means every service and region was fetched and handled, and so was the call between the groups |
| ScrapeJoint.JointIsHistory | cmd/server/main.go:247-284 | a scraper in a run, in any interleaving, is a history of the protocol |
| ScrapeJoint.CoupledAlways | internal/scraper/aws.go:195-429 | the run's error flag, failure counter, open handler calls and delivered hashes are the scraper's, after every joint history |
| ScrapeJoint.ReportIsTrue | internal/scraper/aws.go:404-429 | when a scraper is over the run has an error exactly if it reports one (ReportsErrorIff says when), and a counter equal to the failed services and regions |
| ScrapeJoint.ScraperIsNeverBlocked | cmd/server/main.go:256-279 | whatever a scraper can do next, the protocol can do with it |
| ScrapeJoint.CleanupMeansComplete | cmd/server/main.go:281-334 | in every joint history, marks lost or not: if the cleanup can fire, every service and region of the plan was fetched and handled, the delivered hashes are all that was fetched and synthesised, and all are stored |
| ScrapeJoint.CleanupMeansFetched | cmd/server/main.go:281-334 | the same said of the history alone: if the cleanup can fire, it contains for every service and region of the plan a fetch that answered, and for each answer with products a handler call that went through |
| ScrapeJoint.CleanupMeansMarked | cmd/server/main.go:281-372 | after an orderly one the marks are exactly those hashes too, and the cleanup leaves the vendor with exactly them |
| ScrapeDiscovery.MissedServiceIsDeleted | internal/scraper/gcp.go:86-103 | for every service that is neither static nor discovered, discovery failed or not, there is an orderly run that fetches all it knows of, reports no failure, passes every guard and deletes a stored product of that service |
| ScrapeCoverage.GcpCleanupCoversIff | internal/scraper/gcp.go:86-103 | whatever discovery answered: every GCP run that may clean up has covered a set of services if and only if each of them is among the services to scrape |
| ScrapeCoverage.RunCoversIff | internal/scraper/gcp.go:105-152 | the same for each single run |
| ScrapeCoverage.ResolveDiscoverable | internal/scraper/gcp.go:165-230 | the listed services by display name, up to case, the last id winning; nothing at all when a page fails |
| ScrapeCoverage.ResolvedIff | internal/scraper/gcp.go:206-230 | a name comes out of discovery if and only if it is listed up to case and the service list has it |
| ScrapeCoverage.LastIdWins | internal/scraper/gcp.go:206-210 | of the listed services with one display name the last one gives the id |
| ScrapeCoverage.ListedServicesCoveredIff | internal/scraper/gcp.go:84-103 | all static and discoverable services are covered by every run that may clean up if and only if each discoverable name is static too, or no page failed and some page has it |
| ScrapeSynthesis.GcpCleanupSynthesizes | internal/scraper/gcp.go:138-152 | corollary of CleanupMeansComplete: a run that may clean up put through the machine types of exactly the compute products it fetched |
| ScrapeSynthesis.NoComputeNoMachines | internal/scraper/gcp.go:606-670 | without compute products there are no machine types |
| QueryDocument.SelectionSetDepth | internal/server/server.go:806-834 | terminates on every document, leaves visited as it was, returns the depth |
| QueryDocument.DepthBoundsRoutes | internal/server/server.go:804-834 | no expansion that never re-enters an open fragment nests more fields than the depth |
| QueryDocument.DeepestRoute | internal/server/server.go:804-834 | some such expansion nests exactly that many |
| QueryDocument.AcyclicDepth | internal/server/server.go:784-834 | if no fragment can reach a spread of itself, the depth is the height of the fully inlined selection set |
| QueryDocument.NoCyclesIff | internal/server/server.go:804-834 | there is no cycle if and only if the fragments can be ranked, for one by how many each reaches |
| QueryDocument.CollectedIff | internal/server/server.go:785-790 | a name is collected if and only if some definition is a fragment of that name, and the selections are those of the last one |
| QueryDocument.Fragmentize | internal/server/server.go:785-790 | the loop collects exactly the names some fragment has, each with the selections of the last fragment of that name |
| QueryDocument.ComputeQueryDepth | internal/server/server.go:784-802 | the greatest depth over the operations; without cycles, the greatest height over the fully inlined operations |
| QueryDocument.NestedFieldsCount | internal/server/server.go:804-834 | k nested fields have depth k, whatever the fragments and whichever are open |
| QueryDocument.SelectionSetHasIntrospection | internal/server/server.go:857-890 | decides introspection below open fragments; visited is restored unless it answers true |
| QueryDocument.IntrospectionRoute | internal/server/server.go:857-890 | a positive answer comes with a route that never re-enters an open fragment |
| QueryDocument.Shortcut | internal/server/server.go:875-886 | a route either is found with some fragments closed or yields a shorter one from a closed fragment |
| QueryDocument.IntrospectionIffReachable | internal/server/server.go:855-890 | true exactly when some expansion, cycles included, reaches an introspection field |
| QueryDocument.AsksIffReachable | internal/server/server.go:837-890 | some expansion reaches such a field if and only if a field named __schema or __type stands, at any nesting, in the selections or in a fragment a chain of spreads leads to |
| QueryDocument.ReentryNeverNeeded | internal/server/server.go:875-886 | every such expansion can be shortened to one without re-entry |
| QueryDocument.ContainsIntrospection | internal/server/server.go:837-853 | true exactly when some operation reaches an introspection field, and exactly when a __schema or __type field stands in it or in a fragment that can be reached from it by spreads |
| Catalog.EffectiveLimit | internal/db/queries.go:125-132 | always in 1..5000, the identity there, and 5000 for every other request |
| RequestBudget.StepKeepsBalance | internal/graphql/limits.go:68-103 | every reserve, answer and refund conserves returned + outstanding + left and keeps granted limits in 1..5000 |
| RequestBudget.CapsHold | internal/graphql/limits.go:46-103 | over every interleaving products and queries never exceed their caps; an unlimited cap stays unlimited |
| RequestBudget.RefusedIff | internal/graphql/limits.go:72-79 | a query is refused exactly when queries are spent or returned plus reserved equals the cap; serially, when returned equals it |
| RequestBudget.ConcurrentRefusal | internal/graphql/limits.go:77-79 | one unsettled reservation can refuse another query with nothing returned |
| RequestBudget.Shared.constructor | internal/graphql/limits.go:46-55 | non-positive caps mean unlimited |
| RequestBudget.Shared.Claim | internal/graphql/limits.go:72-91 | takes one query and up to the limit, or nothing |
| RequestBudget.Shared.GiveBack | internal/graphql/limits.go:94-103 | returns the unused part, never to an unlimited cap |
| RequestBudget.Shared.Resolve | internal/graphql/schema.go:129-153 | refuses exactly a too broad filter or a spent budget, for free; otherwise returns what limit, cap and table allow, paying for one query and exactly the rows returned, none if the query fails |
| GzipWriter.WriteKeepsSound | internal/server/gzip.go:76-132 | each write keeps the writer buffering, passing or compressing exactly what was written |
| GzipWriter.ResponseIsDelivered | internal/server/gzip.go:70-177 | one header before any body with the handler's status or 200; the decoded body is what was written; compression depends only on status, declared headers and total size |
| GzipWriter.GzipExactlyWhen | internal/server/gzip.go:76-177 | the rule in numbers: gzip goes out exactly if the status is unset or other than 204, 304 and 100 to 199, no Content-Encoding is set, no readable Content-Length below 1024 is declared and at least 1024 bytes are written; either way the client gets the bytes written |
| GzipWriter.ChunkingDoesNotMatter | internal/server/gzip.go:76-177 | the same bytes in different pieces give the same header and decoded body |
| GzipWriter.GzipResponseWriter.SetStatus | internal/server/gzip.go:70-74 | remembers the status without committing it |
| GzipWriter.GzipResponseWriter.CommitHeader | internal/server/gzip.go:146-156 | commits the header at most once |
| GzipWriter.GzipResponseWriter.BeginGzip | internal/server/gzip.go:134-144 | switches the headers before committing them |
| GzipWriter.GzipResponseWriter.WriteChunk | internal/server/gzip.go:76-132 | the code follows the specified write |
| GzipWriter.GzipResponseWriter.Finish | internal/server/gzip.go:159-177 | the code follows the specified close |
| GzipWriter.ServeGzipped | internal/server/gzip.go:31-41 | a whole request produces the specified response, and so compresses exactly under that rule |
| ProductQuery.ParseReadsBack | internal/db/queries.go:474-487 | a pattern written as /body/flags reads back as body and case flag, slashes in the body included |
| ProductQuery.PatternIsDroppedIff | internal/db/queries.go:474-487 | exactly which patterns parse to nothing |
| ProductQuery.ParseMeans | internal/db/queries.go:474-487 | a pattern without leading slash is taken whole and case-sensitive; otherwise the body ends at the last slash and an i after it ignores case; without another slash it is empty |
| ProductQuery.LessIff | internal/db/queries.go:212-216 | the hash order is the ascending lexicographic one: a proper prefix first, else the first difference decides |
| ProductQuery.SelectsIff | internal/db/queries.go:136-216 | the filter field by field: vendor, service, family, region and sku are equalities, a region excludes usage types that start with Global, every attribute filter fits, the hash lies beyond the cursor |
| ProductQuery.TwoValuesMatchNothing | internal/db/queries.go:186-187 | two values on one key select no product |
| ProductQuery.AddRegion | internal/db/queries.go:163-170 | a region also excludes Global usage types |
| ProductQuery.AddAttribute | internal/db/queries.go:188-210 | a value beats a pattern, an empty pattern adds nothing |
| ProductQuery.BuildProductQuery | internal/db/queries.go:136-227 | refuses exactly overlong patterns; otherwise the clauses with their arguments select what the filter says, and placeholders are 1..n once each in order |
| ProductPaging.CompiledQueryReturnsPage | internal/db/queries.go:212-226 | any compiled query answers with the page the filter describes |
| ProductPaging.PageMeans | internal/db/queries.go:212-226 | a page without cursor is the stretch of the ordered matches after the offset, 5000 long at most and as long as the limit and the matches allow |
| ProductPaging.KeysetPagingIsComplete | internal/db/queries.go:212-226 | following the cursor terminates and yields every matching row once, in hash order |
| ProductPaging.OffsetPagesAgree | internal/db/queries.go:218-226 | page k by offset is page k of the same listing and equals the page after the cursor |
| ProductPaging.PagingStylesAgree | internal/db/queries.go:212-226 | all offset pages together, all cursor pages together and the unpaged listing are the same sequence |
| RateLimiters.UseKeepsOrder | internal/server/server.go:735-769 | getLimiter keeps distinct IPs, at most 10000, newest first |
| RateLimiters.UseMeans | internal/server/server.go:735-769 | one request on the list of entries: the client comes first at the current time with its own bucket, or a new one if it had none, and who else stays |
| RateLimiters.SweepRemovesExactlyIdle | internal/server/server.go:161-175 | the early exit removes exactly the entries used at or before the cutoff |
| RateLimiters.EvictionIsLeastRecent | internal/server/server.go:746-753 | a capacity eviction drops a least recently used entry and nothing else |
| RateLimiters.AlwaysInOrder | internal/server/server.go:161-769 | after every history with a monotonic clock the list has distinct IPs, at most 10000, newest first |
| RateLimiters.EverySweepRemovesExactlyIdle | internal/server/server.go:161-175 | every sweep within such a history removes exactly the idle entries |
| RateLimiters.BucketSurvives | internal/server/server.go:735-769 | a silent client keeps its bucket while fewer than 10000 other IPs turn up and no sweep reaches it |
| RateLimiters.SameBucketAgain | internal/server/server.go:735-769 | two requests of one IP get the same bucket when fewer than 10000 other IPs and no sweep that reaches it come between |
| RateLimiters.Limiters.GetLimiter | internal/server/server.go:735-769 | a known IP gets the bucket it has, an unknown one a new bucket; the others stay, but for the last of 10000 when a newcomer arrives; list and map stay in step |
| RateLimiters.Limiters.EvictIdle | internal/server/server.go:161-175 | exactly the entries used after the cutoff stay; list and map stay in step |
| AzurePrices.SlotKeepsItsBestRows | internal/scraper/azure.go:276-295 | a slot with an authoritative row keeps exactly those in order; another slot keeps all its rows |
| AzurePrices.EverySlotSurvives | internal/scraper/azure.go:284-295 | no slot loses its last row |
| AzurePrices.KeysMean | internal/scraper/azure.go:271-334 | two rows without separators share the slot, exact or tier key if and only if the fields each stands for are equal |
| AzurePrices.Compact | internal/scraper/azure.go:282-295 | the in-place compaction equals that filter |
| AzurePrices.ExactKeyFixesFieldsIff | internal/scraper/azure.go:313-325 | among all rows, whatever their texts, a row's exact key belongs to its five fields alone if and only if none of them contains the separator |
| JoinedKeys.JoinedIdentifiesIff | internal/scraper/azure.go:313-334 | a joined key identifies its fields if and only if none contains the separator |
| AzurePrices.TierKeyFixesTierIff | internal/scraper/azure.go:327-334 | the same for the tier key and its three fields |
| AzurePrices.DeduplicationIsExactIff | internal/scraper/azure.go:313-325 | the pass removes exact duplicates and nothing else if and only if no two rows of the list share a key and differ in a field |
| AzurePrices.SeparatorInFieldConfusesSlots | internal/scraper/azure.go:239-325 | two rows formatted as the code does, with different slots and prices, share a key, and the second is dropped |
| AzurePrices.SeparatorInFieldMergesTiers | internal/scraper/azure.go:327-334 | two different tiers can share a tier key |
| AzurePrices.DeduplicationKeepsSlots | internal/scraper/azure.go:313-325 | on a list without clashes the duplicate pass loses no priced slot and no price of a slot |
| AzurePrices.FirstPerKeyDistinct | internal/scraper/azure.go:313-325 | no two rows with the same exact key remain |
| AzurePrices.DeduplicatePrices | internal/scraper/azure.go:314-325 | keeps the first row of every exact key; of every combination of fields exactly if no two rows clash |
| AzurePrices.DeduplicatePricesByTier | internal/scraper/azure.go:329-347 | exactly one row per tier key, never dearer than another row of it; one per (purchase option, start, term) exactly if no two tiers of the list share a key |
| AzurePrices.TierDeduplicationIff | internal/scraper/azure.go:329-347 | that equivalence, for every result the pass can give |
| AzurePrices.TierPricesAreOrderFree | internal/scraper/azure.go:327-347 | tiers and their prices are the same for every permutation of the rows |
| AzurePrices.AzureProductBuilder.Add | internal/scraper/azure.go:212-269 | every key holds exactly the rows that have it and their flags, in arrival order, and the names, region, service and family of the first of them |
| AzurePrices.BuilderIsConsistent | internal/scraper/azure.go:195-269 | a key exists exactly when some row has it |
| AzurePrices.OwnRowsIff | internal/scraper/azure.go:227-267 | every product holds exactly the rows of its own names and region if and only if no two rows that differ in one of these share a joined key |
| AzurePrices.OwnProductIff | internal/scraper/azure.go:227-267 | every row finds a product of its own names and region under the same condition |
| AzurePrices.ProductKeyFixesNamesIff | internal/scraper/azure.go:228-228 | a product key belongs to its four fields alone if and only if none contains the separator |
| AzurePrices.ProductKeyMeans | internal/scraper/azure.go:228-228 | without separators two rows share a product if and only if product, SKU and meter name and region are equal |
| AzurePrices.SeparatorInNameMergesProducts | internal/scraper/azure.go:228-243 | two products can share a key |
| AzurePrices.ProductsDiffer | internal/scraper/azure.go:228-243 | different keys mean different names or regions |
| AzurePrices.Finish | internal/scraper/azure.go:282-308 | compaction, then the region's duplicate pass; never empty |
| AzurePrices.VirtualRegionIff | internal/scraper/azure.go:350-365 | the regions whose rows are reduced per tier are Global, those that start with Zone, US Gov or DE and a space, and those with China in them |
| AzurePrices.Products | internal/scraper/azure.go:278-311 | one finished product per gathered one, in any map order |
| GcpMachineTypes.LowerBy | internal/scraper/gcp.go:573-582 | one product lowers an index to the least of what it offers |
| GcpMachineTypes.SampleIff | internal/scraper/gcp.go:562-598 | a price counts if and only if it is one of a Compute Engine product whose description has the pattern and neither SUD nor Commitment, is not the zero price and reads as a number |
| GcpMachineTypes.IndexPrices | internal/scraper/gcp.go:552-604 | every family's index holds the least price per region and option over the eligible products; a family without a pattern has none |
| GcpMachineTypes.IndexIsOrderFree | internal/scraper/gcp.go:552-604 | that index is the same for every order of the products |
| GcpMachineTypes.OffersFor | internal/scraper/gcp.go:644-661 | exactly the options priced for both CPU and RAM, each once, at CPU price times cpus plus RAM price times GB |
| GcpMachineTypes.SynthesizeType | internal/scraper/gcp.go:617-667 | one product per region of a machine type, in any map order |
| GcpMachineTypes.SynthesizeMachineTypes | internal/scraper/gcp.go:606-670 | in any map order, exactly one product per machine type and region priced for both, over the least prices of its family |
| GcpMachineTypes.OfferedIff | internal/scraper/gcp.go:606-670 | a type is offered in a region under an option at a price if and only if its family has a least CPU and a least RAM price there and the price is least CPU times cpus plus least RAM times GB |
| GcpMachineTypes.OutcomeIsOrderFree | internal/scraper/gcp.go:606-670 | products in another order or repeated, and maps walked in another order, give the same offers |

## Left out

- HTTP fetching, retries, JSON and gzip decoding in the scrapers: a task fails or delivers products.
- PostgreSQL itself: each statement is atomic at table level; timestamps are integers that advance; regular expressions are any function of case flag, pattern and value; the hash order is lexicographic by character.
- A lock lost while its process keeps working, and a Postgres crash beyond the loss of `scrape_seen` rows.
- SHA-256: a hash belongs to one vendor; products of different names or regions have distinct hashes, so the `seen` check of `products()` never fires (`ProductsDiffer`).
- Floating point and number formatting: prices are exact rationals; Azure and GCP read a price through any function from text to number.
- `RecordPriceSnapshots`, log lines, metrics, integer widths of database columns.
- RunOneScrape: its batches run one after another and the other processes stand still during the call, because a method has one thread; every interleaving is covered by `ScrapeJoint`, `ScrapeSafety` and `ScrapeRefinement`.
- Scrape: its moves are any sequence whatever, so its contract holds for those of every scraper; which sequences a scraper makes is the matter of `ScrapeJoint`.
- FinishRun: does not model the error text it also writes, because nothing reads it back.
- ReapStale: does not model the error text it also writes, because nothing reads it back.
- The batch loop of `handleGraphQL`, parsing of GraphQL arguments, `FilterPrices` and the lookaround simulation in `MatchRegexPattern`.
- Flush, Hijack, a WriteHeader after the first Write, and failing underlying writes in the gzip writer.
- The token buckets behind the rate limiters, client-IP selection, authentication, CORS, configuration and deploy scripts.
- Attribute and region normalisation tables of the scrapers and the catalog TOML files: an Azure row arrives with its regions and its authority decided.

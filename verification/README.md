# Verified models of the repository's stateful cores

Each module models one component of the repository and proves what that component is for. Where the source changes
state step by step the model is a class or a method with loops, proved against a specification function; the main
results are then lemmas about those functions, over all inputs and all runs.

- **Donut-sync** (`ObjectKeys`, `SyncScopes`, `SyncSubscriber`, `SyncWorld`, `SyncPolls`, `SyncViews`, `SyncDropped`,
  `SyncLate`, `SyncProtocol`, `SyncWriters`, `SyncRuns`, `SyncLossy`, `SyncCleanup`): a bucket is a map from keys to
  objects with a time stamp and an ETag. Writers change objects and then write a manifest whose ETag is fresh; a
  subscriber HEADs its manifests and LISTs, page by page, only when an ETag moved. `SyncProtocol` interleaves any
  number of writers with one subscriber at every single request: unbumped uploads, failed HEADs and lost LIST pages
  included. The invariant of that machine says which keys a subscriber may be wrong about; `UndisturbedPoll` ties the
  machine back to the poll loop, `DeleteIsARun` and `DeletePrefixIsARun` to the service's requests.
- **Mona crawler** (`CrawlerPool`, `CrawlLog`): workers interleave at their awaits over shared counters and a shared
  cursor; the output object serialises appends and may be stopped at any point, also inside an append, and resumed.
- **Notify manager** (`NotifyManager`, `NotifyDelivery`): user code is a tree of commands (schedule, batch, throw,
  catch), timers a FIFO.
- **Trees** (`ParentLinks`, `MenuRoutes`, `TreeFilters`, `TreesInPlace`): trees grown from parent links, whose
  recursion ends because a chain from a root cannot meet itself, and the filters on built trees, in place where the
  source is.
- **Migration** (`CrmMigration`): the legacy-to-CRM script over tables and an id map.
- **Parsers** (`SqlValues`, `SseReassembly`): the VALUES splitter with the per-table rewriting, and the reassembly of
  a streamed reply.
- **Smaller loops** (`ArchiveFilter`, `ContactDedupe`, `SchemaMerge`, `UniqueHandle`).
- `Common` holds options, repetition-free sequences, insertion-ordered maps and `trim`.

## What turned out not to hold

Each is a lemma below: a concrete failing case, or the exact condition under which the code keeps the promise.

- Uploads bump the manifest when they are presigned, before the object is written. The comment at
  `sync.service.ts:182-184` calls this over-eager; it is also too early: an upload landing after the listing its bump
  caused stays unseen until some other bump (`HiddenUploadRun`). The clean-up of excess profiles never bumps
  (`CleanupAnnouncedIff`), a delete whose tombstone cannot be written has removed the object without a bump
  (`FailedTombstoneIsSilent`), so has a prefix delete that fails at a page or its tombstone after removing some
  (`FailedPrefixIsSilent`), and a tombstone in another scope than the deleted key is not announced there
  (`DeleteAnnouncedIff`).
- When the user and the team scope hold the same relative key, a poll can emit it twice (`PollEmitsOnce`,
  `FirstPollEmitsOnce`) and the events need not rebuild the known state (`FoldGivesListing`, `SharedKeyBreaksFold`).
- A LIST page that fails looks like deletions exactly of what lies past it, and stays so until an ETag moves
  (`LossyListingIff`, `LossyTickIff`, `LostKeysReportedIff`, `LossLasts`).
- A poll superseded by the next tick changes the known state without telling the client (`SupersededPollIff`,
  `SupersededPollLosesKey`). One that finishes after its successor writes its older listing over the known state,
  which stays wrong until an ETag moves (`LateOverwriteIff`); after that the client keeps a key created and deleted in
  between (`LateClientIff`, `LateOverwriteKeepsDeleted`).
- A crawler page counted as skipped whose record cannot be appended is counted again (`CountersAddUp`,
  `FailedSkipCountsTwice`), and an article whose save fails is skipped on retry as a duplicate of itself if its
  canonical address is not its URL (`RetryAfterFailedSave`).
- After an append broken off, the next one continues its line: the new record is lost to readers, and with it an old
  one that lacked only its newline (`CompletedHasRecordsIff`, `ForgottenIff`, `TornAppendLosesARecord`,
  `UnendedLineIsForgotten`). A task that failed at its completed line's newline and is tried again spoils its own line
  (`RetryForgetsItself`).
- A migration run for one tenant does not see an id map entry of another: the row gets a second one (`OneEntryIff`,
  `ForeignEntryDoubles`).
- A throwing callback drops the rest of its flush (`DroppedIff`).
- A contact found by its email alone can be given another person later (`LaterRepeatIsSameIff`, `EmailMatchDrifts`).
- The handle search does not end when every candidate is taken; a base of 100 characters has only itself (`EndsIff`,
  `LongBaseNeverEnds`).
- Columns and values fall out of step when `order` is a repeated column (`TransformInsert`).

## Model

| member | source | states |
|---|---|---|
| SyncScopes.ScopedKeyIsOwned | apps/donut-sync-backend/src/sync/sync.service.ts:159-228 | a scoped key always passes the access check and its owner is one of the user's own scopes |
| SyncScopes.ScopeKeyKeeps | apps/donut-sync-backend/src/sync/sync.service.ts:159-163 | a self-hosted key, or one that names the team's own scope, is kept; any other is the user's prefix followed by the key |
| SyncScopes.ScopeKeyIsInjective | apps/donut-sync-backend/src/sync/sync.service.ts:159-163 | with separated prefixes two keys of a user become one object only if they are the same |
| SyncScopes.AllowedIffOwned | apps/donut-sync-backend/src/sync/sync.service.ts:221-241 | the keys that pass the access check are exactly those some scope of the user owns |
| SyncScopes.OwnerIsUnique | apps/donut-sync-backend/src/sync/sync.service.ts:170-228 | when no scope prefix lies inside another, a key has one owner |
| ObjectKeys.LeIff | apps/donut-sync-backend/src/sync/sync.service.ts:670-719 | a LIST goes in lexicographic order: a key before its extensions, else by the first different character |
| SyncSubscriber.DataKeyIff | apps/donut-sync-backend/src/sync/sync.service.ts:606-606 | the data keys are the four prefixes followed by anything, and nothing else |
| SyncSubscriber.Subscriber.HeadManifests | apps/donut-sync-backend/src/sync/sync.service.ts:622-659 | the HEAD phase records every answered ETag and reports whether an answered one moved; an unanswered one changes neither (`HeadsAnswered`) |
| SyncSubscriber.Subscriber.ScanPage | apps/donut-sync-backend/src/sync/sync.service.ts:684-710 | one page records its data keys, relative to the scope, and emits those that differ from the known state |
| SyncSubscriber.Subscriber.ListScope | apps/donut-sync-backend/src/sync/sync.service.ts:670-719 | following tokens visits the scope in listing order, for every page size, up to a page that throws |
| SyncSubscriber.Subscriber.ListScopes | apps/donut-sync-backend/src/sync/sync.service.ts:663-719 | all scopes are listed in turn into one state and one list of changes, a failure ending its own scope only |
| SyncSubscriber.Subscriber.Poll | apps/donut-sync-backend/src/sync/sync.service.ts:615-731 | one undisturbed tick, whichever HEADs and LISTs fail; without a failed LIST it is the gated poll |
| SyncPolls.FoldGivesListing | apps/donut-sync-backend/src/sync/sync.service.ts:684-728 | applying a poll's events to the known state gives the new known state exactly when no entry is shadowed by a later scope's entry of the same key |
| SyncPolls.PollEmitsOnce | apps/donut-sync-backend/src/sync/sync.service.ts:684-728 | no key is emitted twice exactly when no key is listed twice with both stamps differing from the known one |
| SyncPolls.RelistIsSilent | apps/donut-sync-backend/src/sync/sync.service.ts:684-728 | listing the same entries again emits nothing exactly when no key is listed with two stamps |
| SyncPolls.HeadsAnswered | apps/donut-sync-backend/src/sync/sync.service.ts:622-659 | whichever HEADs fail: an answered scope's remembered ETag is the stored one, any other's the old one, and a move is noticed iff an answered ETag moved |
| SyncPolls.GatedEqualsFull | apps/donut-sync-backend/src/sync/sync.service.ts:618-731 | when mutations are bumped between ticks, the gated subscriber emits tick by tick what one listing every time emits, exactly unless at some tick no ETag moved and a key is listed with two stamps |
| SyncViews.ListingIsView | apps/donut-sync-backend/src/sync/sync.service.ts:670-710 | one scope's listing is exactly its four-prefix view, each key once |
| SyncViews.ListingsMerge | apps/donut-sync-backend/src/sync/sync.service.ts:663-719 | listing all scopes gives the merge of their views, later scopes winning |
| SyncViews.FirstPollEmitsOnce | apps/donut-sync-backend/src/sync/sync.service.ts:684-710 | a first poll of a user and a team scope emits every key once exactly when the two share no data key |
| SyncViews.SharedKeyBreaksFold | apps/donut-sync-backend/src/sync/sync.service.ts:684-728 | the failing input: a key of the team scope appears in the user scope with another stamp, and the second poll's events do not give the known state |
| SyncDropped.ClientCatchesUpIff | apps/donut-sync-backend/src/sync/sync.service.ts:684-728 | whatever a client holds, a poll brings it to the listed state exactly when every key on which it disagrees with the known state is changed by this poll |
| SyncDropped.SupersededPollIff | apps/donut-sync-backend/src/sync/sync.service.ts:615-728 | after a poll whose events were dropped, the next one puts the client right exactly when every key the dropped poll changed has changed again |
| SyncLate.LateOverwriteIff | apps/donut-sync-backend/src/sync/sync.service.ts:615-731 | when a superseded poll writes its listing over its successor's, every poll is silent while no ETag moves, and at each of these ticks the known state is right exactly when both had listed the same stamps |
| SyncLate.SilentSuccessorIsHarmless | apps/donut-sync-backend/src/sync/sync.service.ts:618-661 | a successor that listed nothing, because no ETag had moved since the late poll's HEADs, leaves the late listing right |
| SyncLate.LateClientIff | apps/donut-sync-backend/src/sync/sync.service.ts:684-728 | the next moved ETag puts the known state right, and the client exactly when no key told to it has gone back to what the late listing had; with stamps never reused, exactly when no key was created and deleted in between, and such a key is never deleted at the client |
| SyncLate.LateOverwriteKeepsDeleted | apps/donut-sync-backend/src/sync/sync.service.ts:612-731 | a first poll on the empty bucket that hangs, a profile created and deleted: the client keeps the profile through all later quiet ticks |
| SyncLate.SupersededPollLosesKey | apps/donut-sync-backend/src/sync/sync.service.ts:612-731 | a superseded poll that listed a new profile: known from then on, told to the client at no later quiet tick |
| SyncWorld.CommitIsVisible | apps/donut-sync-backend/src/sync/sync.service.ts:186-228 | a mutation and its bump give its own scope a new ETag and leave every other scope's objects and ETag alone |
| SyncWorld.SameEtagSameObjects | apps/donut-sync-backend/src/sync/sync.service.ts:186-228 | over any sequence of bumped mutations a scope that keeps its ETag keeps its objects |
| SyncProtocol.StepKeepsInv | apps/donut-sync-backend/src/sync/sync.service.ts:601-743 | every step of a writer, an upload or the subscriber keeps the gating invariant |
| SyncProtocol.RunKeepsInv | apps/donut-sync-backend/src/sync/sync.service.ts:601-743 | the invariant holds in every state of every interleaving |
| SyncProtocol.SkippedListHidesNothing | apps/donut-sync-backend/src/sync/sync.service.ts:618-661 | between polls, a scope with the remembered ETag and no bump outstanding is known exactly as stored, up to keys written without a bump |
| SyncProtocol.QuietMeansKnown | apps/donut-sync-backend/src/sync/sync.service.ts:618-661 | with no unannounced write since, the known state is then the merge of the store's four-prefix views |
| SyncProtocol.EventsRebuildKnown | apps/donut-sync-backend/src/sync/sync.service.ts:684-731 | over every run in which the scopes' listings share no key, folding all events from nothing gives the known state and no poll repeats a key |
| SyncProtocol.NextPollCatchesUp | apps/donut-sync-backend/src/sync/sync.service.ts:615-731 | once no delete owes a bump and nothing is unannounced, the next undisturbed poll knows the whole store |
| SyncProtocol.PollKnowsIff | apps/donut-sync-backend/src/sync/sync.service.ts:615-731 | an undisturbed poll, whichever HEADs fail, ends knowing the store exactly when some answered ETag moved or it knew the store already |
| SyncProtocol.UndisturbedPoll | apps/donut-sync-backend/src/sync/sync.service.ts:615-731 | run without interference, and with any HEADs and LISTs failing, the protocol's poll steps are the tick of the poll loop |
| SyncProtocol.UploadAfterListingIsHidden | apps/donut-sync-backend/src/sync/sync.service.ts:618-661 | a poll that finds the manifests unmoved does not see an object written without a bump |
| SyncRuns.HiddenUploadRun | apps/donut-sync-backend/src/sync/sync.service.ts:182-214 | a whole run: an upload is announced, a poll lists, the upload lands, the next poll is silent and the known state lacks it |
| SyncRuns.RunIsExecution | apps/donut-sync-backend/src/sync/sync.service.ts:601-743 | a run from an initial state is one of the interleavings the invariant speaks of |
| SyncLossy.LostListingLooksLikeDeletes | apps/donut-sync-backend/src/sync/sync.service.ts:712-728 | the shortest case: one scope, its only page lost, every known key reported deleted |
| SyncLossy.ReadIsViewIff | apps/donut-sync-backend/src/sync/sync.service.ts:670-719 | a scope whose listing lost a page is known as stored exactly when no data key lies past the lost page's token |
| SyncLossy.LossyListingIff | apps/donut-sync-backend/src/sync/sync.service.ts:670-728 | over any scopes sharing no key and any lost pages, an undisturbed listing ends knowing the store exactly when no data key lay past a lost page's token |
| SyncLossy.ReadReaches | apps/donut-sync-backend/src/sync/sync.service.ts:670-719 | what a scope's loop reads is what the store holds up to the token of its first LIST that throws |
| SyncLossy.LossyTickIff | apps/donut-sync-backend/src/sync/sync.service.ts:615-731 | a tick that lists, whichever of its requests fail, ends knowing the store exactly when in each scope no data key lies past the first LIST that threw |
| SyncLossy.LostKeysReportedIff | apps/donut-sync-backend/src/sync/sync.service.ts:712-728 | a known key that is still stored is reported deleted exactly when it lay past the token of its scope's lost page |
| SyncLossy.LossLasts | apps/donut-sync-backend/src/sync/sync.service.ts:618-661 | while no ETag moves, any number of later polls are silent and keep what the listing left |
| SyncRuns.DeleteIsARun | apps/donut-sync-backend/src/sync/sync.service.ts:335-385 | every delete, whichever calls succeed, with a tombstone anywhere or none, is a run of the protocol with the service's effect on the bucket |
| SyncRuns.DeletePrefixIsARun | apps/donut-sync-backend/src/sync/sync.service.ts:513-587 | every prefix delete, one write for each page, is such a run with the service's effect; one that fails at a page or at its tombstone is a run of unannounced deletions |
| SyncWriters.SyncService.BumpManifest | apps/donut-sync-backend/src/sync/sync.service.ts:186-214 | writes a fresh ETag to the owning scope's manifest and nothing else |
| SyncWriters.DeleteChanges | apps/donut-sync-backend/src/sync/sync.service.ts:338-386 | key by key: a delete takes away its object with or without a tombstone, writes exactly the tombstone asked for, bumps the key's own manifest iff it did either, and changes nothing else; one that throws has taken away the object only |
| SyncWriters.DeletePrefixChanges | apps/donut-sync-backend/src/sync/sync.service.ts:513-587 | key by key: a prefix delete takes away all under the prefix and counts it, or, when a page throws, the least keys of the pages before; tombstone and bump exactly when it removed something, nothing else changes |
| SyncWriters.SyncService.Delete | apps/donut-sync-backend/src/sync/sync.service.ts:335-385 | the object goes, the tombstone comes, the key's scope is bumped, with each call's failure |
| SyncWriters.SyncService.DeleteAllUnder | apps/donut-sync-backend/src/sync/sync.service.ts:522-555 | the paged loop ends and removes exactly the objects under the prefix, counting each once, for every page size; when a page throws, exactly those of the pages before it |
| SyncWriters.SyncService.DeletePrefix | apps/donut-sync-backend/src/sync/sync.service.ts:513-587 | the objects under the prefix go; tombstone and bump come exactly when there were any; a page or a tombstone that throws ends the call without a bump and leaves what was removed before |
| SyncWriters.DeleteAnnouncedIff | apps/donut-sync-backend/src/sync/sync.service.ts:335-385 | a delete announces all it changed exactly when its tombstone is absent, in the key's own scope, or was there already |
| SyncWriters.DeletePrefixAnnouncedIff | apps/donut-sync-backend/src/sync/sync.service.ts:513-587 | the same for a prefix delete whose calls succeed, or when there is nothing under it |
| SyncWriters.FailedTombstoneIsSilent | apps/donut-sync-backend/src/sync/sync.service.ts:357-382 | a delete that cannot write its tombstone announces nothing, though the object is gone |
| SyncWriters.FailedPrefixIsSilent | apps/donut-sync-backend/src/sync/sync.service.ts:513-587 | a prefix delete that throws has removed the pages before and is announced exactly when those are none or hold the scope's own manifest |
| SyncCleanup.ListProfiles | apps/donut-sync-backend/src/sync/sync.service.ts:756-797 | the paged directory listing finds every profile once, with the stamp of its first object |
| SyncCleanup.ProfileIdsIff | apps/donut-sync-backend/src/sync/sync.service.ts:763-785 | a profile is a directory directly below the prefix with something in it |
| SyncCleanup.RecordedIsLeast | apps/donut-sync-backend/src/sync/sync.service.ts:776-785 | a profile counts as old as the least key of its own directory |
| SyncCleanup.SortedNewest | apps/donut-sync-backend/src/sync/sync.service.ts:803-806 | the order is by descending stamp, among equal stamps by directory, and a permutation of the profiles |
| SyncCleanup.CutIsNewestExcess | apps/donut-sync-backend/src/sync/sync.service.ts:799-809 | the profiles cut off number max(0, n - maxProfiles), newest first, and each is newer than every survivor, ties by directory |
| SyncCleanup.RemoveProfiles | apps/donut-sync-backend/src/sync/sync.service.ts:812-867 | each chosen directory is emptied and leaves one tombstone |
| SyncCleanup.RemovedExactly | apps/donut-sync-backend/src/sync/sync.service.ts:812-867 | only objects of removed directories go, only their tombstones come, every other object is untouched |
| SyncCleanup.CleanupExcessProfiles | apps/donut-sync-backend/src/sync/sync.service.ts:749-876 | the whole clean-up: which profiles go, what the bucket then holds, how many remain |
| SyncCleanup.CleanupIsUnannounced | apps/donut-sync-backend/src/sync/sync.service.ts:749-876 | removing profiles is announced exactly when none is removed: no manifest is bumped |
| SyncCleanup.CleanupAnnouncedIff | apps/donut-sync-backend/src/sync/sync.service.ts:749-876 | a clean-up is announced exactly when the user has no profile too many |
| CrawlerPool.Crawl.NextUrl | tools/cdp-reverse-mona/src/crawler.ts:103-109 | declines at a limit without moving the cursor, otherwise hands out the next URL |
| CrawlerPool.Crawl.Take | tools/cdp-reverse-mona/src/crawler.ts:173-182 | taking a URL is the protocol's step |
| CrawlerPool.Crawl.Fetched | tools/cdp-reverse-mona/src/crawler.ts:186-220 | a loaded page is skipped, claimed or retried as the protocol's step says |
| CrawlerPool.Crawl.Catch | tools/cdp-reverse-mona/src/crawler.ts:242-261 | while attempts remain the next attempt starts, otherwise the error is counted and reported (`AttemptsCount`) |
| CrawlerPool.Crawl.SaveEnded | tools/cdp-reverse-mona/src/crawler.ts:222-261 | a finished save counts the article, a failed one goes to the catch block |
| CrawlerPool.Crawl.SkipEnded | tools/cdp-reverse-mona/src/crawler.ts:205-261 | a failed append of a skip record goes to the catch block after its URL was counted |
| CrawlerPool.Crawl.ReportEnded | tools/cdp-reverse-mona/src/crawler.ts:253-265 | after its error record the worker goes on; if that append fails it stops |
| CrawlerPool.RunKeepsInv | tools/cdp-reverse-mona/src/crawler.ts:99-261 | counters, hand-out, ownership and claims agree in every state of every interleaving |
| CrawlerPool.CountersAddUp | tools/cdp-reverse-mona/src/crawler.ts:173-261 | attempted plus failed skip appends is articles + skipped + errors + in flight; without the failures the plain equation holds, and only then |
| CrawlerPool.AttemptsCount | tools/cdp-reverse-mona/src/crawler.ts:182-261 | over every interleaving a worker's attempt is one more than the throws of its URL so far, no URL is loaded more than retries + 1 times, and it is given up exactly when all of them threw |
| CrawlerPool.CrawlEnds | tools/cdp-reverse-mona/src/crawler.ts:173-275 | every crawl takes at most 2 * retries + 4 steps a URL and one a worker, of which there are as many as URLs up to the concurrency |
| CrawlerPool.DuplicateIff | tools/cdp-reverse-mona/src/crawler.ts:213-220 | a loaded article is skipped exactly when its address is not its own and an article of that address was accepted before |
| CrawlerPool.CrashedIff | tools/cdp-reverse-mona/src/crawler.ts:242-261 | a worker is stopped by a failure exactly when its error record could not be appended |
| CrawlerPool.FailedSkipCountsTwice | tools/cdp-reverse-mona/src/crawler.ts:173-261 | a whole crawl of one page that ends with one attempt counted as skipped and as an error |
| CrawlerPool.HandedOnce | tools/cdp-reverse-mona/src/crawler.ts:103-109 | URLs are handed out in list order, each at most once, as many as attempted |
| CrawlerPool.LimitsHold | tools/cdp-reverse-mona/src/crawler.ts:103-111 | attempted never exceeds a positive maxAttempts, articles never maxArticles + workers - 1 |
| CrawlerPool.FinishedCrawl | tools/cdp-reverse-mona/src/crawler.ts:111-126 | when all workers have stopped, a limit was reached or every URL was settled |
| CrawlerPool.OneAliasPerCanonical | tools/cdp-reverse-mona/src/crawler.ts:213-241 | of two articles saved under one address one is the address's own page |
| CrawlerPool.AtMostTwoPerCanonical | tools/cdp-reverse-mona/src/crawler.ts:213-241 | at most two articles are saved under one address |
| CrawlerPool.RetryAfterFailedSave | tools/cdp-reverse-mona/src/crawler.ts:213-251 | a retried save is skipped as a duplicate exactly when the address is not the URL's own |
| CrawlLog.MonaOutput.Prepare | tools/cdp-reverse-mona/src/output.ts:70-84 | reads back the URL of every line that parses, ignores the rest |
| CrawlLog.MonaOutput.Enqueue | tools/cdp-reverse-mona/src/output.ts:169-172 | a task joins the end of the chain |
| CrawlLog.MonaOutput.WriteNext | tools/cdp-reverse-mona/src/output.ts:103-122 | the head task's appends happen in order; the completed line is the last |
| CrawlLog.MonaOutput.FailNext | tools/cdp-reverse-mona/src/output.ts:169-172 | a failed append, leaving nothing, part of its record or all but its newline, rejects its task and lets the next one start |
| CrawlLog.RunKeepsInv | tools/cdp-reverse-mona/src/output.ts:70-122 | in every state of every history, also after appends broken off anywhere: one completed line a URL, no queued task of a completed URL but the retry of one whose line lacks its newline, tasks in order |
| CrawlLog.TaskOutcome | tools/cdp-reverse-mona/src/output.ts:103-122 | seen before it starts, a task, retry or not, completes its URL iff the completed file ends with its newline, and leaves its records iff each record file it needs does or has the record |
| CrawlLog.WritesApply | tools/cdp-reverse-mona/src/output.ts:103-122 | a task written without interruption leaves what its appends make of the files |
| CrawlLog.CompletedHasRecords | tools/cdp-reverse-mona/src/output.ts:70-122 | stopped between appends, every URL read back as completed has its records in both article files or in the skip file |
| CrawlLog.StrapiFollowsArticles | tools/cdp-reverse-mona/src/output.ts:103-110 | stopped between appends, a URL is in `strapi-ready.jsonl` only if it is in `articles.jsonl` |
| CrawlLog.CompletedHasRecordsIff | tools/cdp-reverse-mona/src/output.ts:70-122 | over any history stopped anywhere, the task that completed a URL, from its start to its completed line, left it its records if, and before any retry only if, it found a file ready for each record it lacked; a retry comes only after a completed line that failed at its newline |
| CrawlLog.CompletedNotHandedOut | tools/cdp-reverse-mona/src/crawler.ts:94-109 | in every run a URL on a completed line is not handed out, is queued only while that line lacks its newline, and no URL is on two completed lines |
| CrawlLog.ForgottenIff | tools/cdp-reverse-mona/src/output.ts:70-84 | a completed URL stops being read back exactly when its line lacks the newline and the next append continues it |
| CrawlLog.CompletedNeverAgain | tools/cdp-reverse-mona/src/crawler.ts:94-109 | unless an append breaks off between a record and its newline, a completed URL is never handed out again in any later run |
| CrawlLog.UnendedLineIsForgotten | tools/cdp-reverse-mona/src/output.ts:70-84 | a history in which such a crash makes a URL read back as completed be handed out two runs later |
| CrawlLog.RetryForgetsItself | tools/cdp-reverse-mona/src/output.ts:103-122 | a history in which a completed line fails at its newline, the retry ends well, and the URL is on no completed line |
| CrawlLog.TasksEndInOrder | tools/cdp-reverse-mona/src/output.ts:169-172 | tasks end in the order they were queued, also after a failed one |
| CrawlLog.TornAppendLosesARecord | tools/cdp-reverse-mona/src/output.ts:103-122 | a history in which a crash inside an append costs a later article its record |
| NotifyManager.Manager.Schedule | libs/nest-core/src/utils/schedule.util.ts:51-60 | inside a batch a callback is queued, outside it gets a timer |
| NotifyManager.Manager.Flush | libs/nest-core/src/utils/schedule.util.ts:23-35 | the queue becomes one timer, an empty one none |
| NotifyManager.Manager.RunBatch | libs/nest-core/src/utils/schedule.util.ts:37-49 | the depth goes down and the outermost batch flushes also when the body throws |
| NotifyManager.Manager.RunAll | libs/nest-core/src/utils/schedule.util.ts:37-60 | any program of nested batches runs as the specification says |
| NotifyManager.ExecKeeps | libs/nest-core/src/utils/schedule.util.ts:37-60 | any program restores the depth, adds its callbacks in order at the end of those waiting, calls none |
| NotifyManager.ScheduledInOrder | libs/nest-core/src/utils/schedule.util.ts:13-60 | over every history taken plus waiting callbacks are the scheduled ones in order, between turns no batch is open and the queue is empty, and none was called inside a batch |
| NotifyDelivery.ProgramMeans | libs/nest-core/src/utils/schedule.util.ts:23-60 | any program does to the manager what its callbacks say: inside a batch they are queued, outside each gets a timer, those of one outermost batch share one, and code after a throw does nothing |
| NotifyDelivery.DeliverCalls | libs/nest-core/src/utils/schedule.util.ts:27-33 | a delivery calls its callbacks in order up to the first that throws; what the called ones schedule goes behind the timers there are |
| NotifyDelivery.DroppedIff | libs/nest-core/src/utils/schedule.util.ts:27-33 | a callback of a flush is dropped exactly when an earlier one of it throws |
| NotifyDelivery.CalledUnlessThrown | libs/nest-core/src/utils/schedule.util.ts:13-60 | if any callback was taken without being called, some scheduled callback throws |
| NotifyDelivery.Drain | libs/nest-core/src/utils/schedule.util.ts:13-60 | firing the timers there are takes everything waiting, in order |
| ParentLinks.ChainIsShort | libs/nest-core/src/utils/list2tree.util.ts:12-25 | a chain of parents from a root repeats nothing and is no longer than the list, so the recursion ends despite cyclic links |
| ParentLinks.ChainIsUnique | libs/nest-core/src/utils/list2tree.util.ts:12-25 | an item has one chain to a root |
| ParentLinks.GrowHolds | libs/nest-core/src/utils/list2tree.util.ts:12-25 | an item is in the tree iff it is reached through kept and opened parents |
| ParentLinks.GrowOnce | libs/nest-core/src/utils/list2tree.util.ts:12-25 | no item appears twice |
| ParentLinks.GrowLinked | libs/nest-core/src/utils/list2tree.util.ts:12-25 | at every depth the children are the list's entries under their parent, in list order |
| ParentLinks.UnderInOrder | libs/nest-core/src/utils/list2tree.util.ts:12-25 | the children of a node stand in list order, each once |
| ParentLinks.List2TreeHoldsTheRooted | libs/nest-core/src/utils/list2tree.util.ts:12-25 | the tree holds exactly the items whose parents lead to the null root, each once, under its parent |
| ParentLinks.List2TreeIsAPermutation | libs/nest-core/src/utils/list2tree.util.ts:12-25 | the tree is a permutation of the list exactly when every item's parents lead to the root |
| MenuRoutes.RoutersEmit | libs/nest-core/src/utils/permission.util.ts:76-134 | the routes are exactly the enabled directories and pages all of whose ancestors are enabled directories, each once |
| MenuRoutes.TableHolds | libs/nest-core/src/utils/permission.util.ts:137-180 | the table holds, enabled or not, exactly the directories, pages and non-root permissions below directories and pages only, each once |
| MenuRoutes.RoutesAreInTable | libs/nest-core/src/utils/permission.util.ts:76-180 | every route's menu also stands in the menu table |
| MenuRoutes.FilterAsyncRoutes | libs/nest-core/src/utils/permission.util.ts:76-130 | the loop builds those routes; one with children redirects to its first child, all others nowhere |
| MenuRoutes.FilterMenuToTable | libs/nest-core/src/utils/permission.util.ts:137-176 | the loop builds the menu table's tree |
| TreeFilters.FilterToList | libs/nest-core/src/utils/list2tree.util.ts:33-50 | the accumulating reduce computes the filter |
| TreeFilters.FilterKeepsTheRelated | libs/nest-core/src/utils/list2tree.util.ts:33-50 | a node stays iff it, an ancestor or a descendant matches, in order and at its depth |
| TreeFilters.FilterIsIdempotent | libs/nest-core/src/utils/list2tree.util.ts:33-50 | filtering again changes nothing |
| TreeFilters.FilterTreeKeepsTheConnected | libs/nest-core/src/utils/list2tree.util.ts:57-75 | a node stays iff its whole root path satisfies the predicate, in order and at its depth |
| TreeFilters.OnlyEmptyChildrenGo | libs/nest-core/src/utils/list2tree.util.ts:77-84 | no empty child list is left, the nodes, their order and depths are kept, and a tree without one is unchanged |
| TreesInPlace.DeleteEmptyChildrenIn | libs/nest-core/src/utils/list2tree.util.ts:77-84 | clearing fields of the node objects leaves them standing for the cleaned tree |
| TreesInPlace.FilterTreeIn | libs/nest-core/src/utils/list2tree.util.ts:57-75 | the returned node objects, their children reassigned in place, stand for the filtered tree |
| CrmMigration.Migration.MigrateTable | scripts/db/migrate-lp-crm-to-crm.js:147-261 | copies exactly the unmapped rows and counts them, a dry run counts the same and changes nothing |
| CrmMigration.Migration.MigrateLinks | scripts/db/migrate-lp-crm-to-crm.js:265-297 | adds the image of every link in scope whose ends are mapped |
| CrmMigration.Migration.BackfillOrderPersonIds | scripts/db/migrate-lp-crm-to-crm.js:303-338 | every order is backfilled, none in a dry run (`OrdersLinked`) |
| CrmMigration.Migration.Run | scripts/db/migrate-lp-crm-to-crm.js:466-468 | a whole run; a dry run changes nothing and counts what a real one creates |
| CrmMigration.MigrateMaps | scripts/db/migrate-lp-crm-to-crm.js:147-261 | exactly the missing rows get an entry, each with a fresh id, older entries stay |
| CrmMigration.MappingMaps | scripts/db/migrate-lp-crm-to-crm.js:147-261 | after both tables every row in scope has its entry |
| CrmMigration.RunCopies | scripts/db/migrate-lp-crm-to-crm.js:147-261 | what is new in the id map and among the CRM rows are copies, one to one, with kind, tenant and columns of their legacy row; old rows and entries stay |
| CrmMigration.ExactlyOneEntry | scripts/db/migrate-lp-crm-to-crm.js:79-88 | after a full run over tables in order every legacy row has exactly one entry, in its own tenant |
| CrmMigration.EntriesAfterMigrate | scripts/db/migrate-lp-crm-to-crm.js:79-261 | whatever the id map holds, a row keeps its old entries and gets its own iff none of them is in the run's scope |
| CrmMigration.OneEntryIff | scripts/db/migrate-lp-crm-to-crm.js:79-261 | so it ends with exactly one entry iff it had one in scope and no other, or none at all |
| CrmMigration.ForeignEntryDoubles | scripts/db/migrate-lp-crm-to-crm.js:79-88 | a run for the row's tenant does not see the entry of another tenant and adds a second one |
| CrmMigration.FirstRunIsValid | scripts/db/migrate-lp-crm-to-crm.js:147-338 | tables before the first run are in order, and a run keeps them in order |
| CrmMigration.LinksCarried | scripts/db/migrate-lp-crm-to-crm.js:265-297 | the image of every legacy customer-company link is linked |
| CrmMigration.LinksExactly | scripts/db/migrate-lp-crm-to-crm.js:265-297 | the links after a run are the old ones and what legacy links of customers in scope became, nothing else |
| CrmMigration.OrdersLinked | scripts/db/migrate-lp-crm-to-crm.js:303-338 | an order in scope without a person, whose customer is mapped in its tenant, gets the person its customer became; every other order stays as it was |
| CrmMigration.SecondRunChangesNothing | scripts/db/migrate-lp-crm-to-crm.js:147-338 | running again changes nothing |
| SqlValues.SplitValues | scripts/db/convert-mysql-seed-to-pg.js:27-68 | the index loop computes the scanner |
| SqlValues.SplitUndoesJoin | scripts/db/convert-mysql-seed-to-pg.js:27-115 | splitting well-formed literals joined with ", " gives them back |
| SqlValues.SplitAtCommas | scripts/db/convert-mysql-seed-to-pg.js:27-68 | whatever the text, cut at the commas outside strings: the values are the trimmed pieces, empty ones included, but a blank last one is none |
| SqlValues.HasPieces | scripts/db/convert-mysql-seed-to-pg.js:27-68 | every text is such pieces, only the last perhaps with a string left open |
| SqlValues.TransformInsert | scripts/db/convert-mysql-seed-to-pg.js:81-113 | which columns and values come, go or change in each table, and where; columns and values stay aligned exactly when `order` is not repeated |
| SqlValues.DropOrder | scripts/db/convert-mysql-seed-to-pg.js:84-90 | every `order` column goes, the value at its first place goes, all others stay in order and beside their values |
| SqlValues.AddSuperAdmin | scripts/db/convert-mysql-seed-to-pg.js:107-112 | the new column and its value come right behind `username`, every other column keeps its own |
| SseReassembly.ParseChunks | libs/ai-gateway/src/lib/omniroute-ai-provider.gateway.ts:217-268 | none is an error, a single or a full-message chunk is the reply, otherwise content and, per call in first-seen order, all fragments are put together |
| SseReassembly.ReplyIs | libs/ai-gateway/src/lib/omniroute-ai-provider.gateway.ts:217-222 | none is an error, a single chunk is the reply, of several the last with a full message is, and only without one the deltas are put together |
| SseReassembly.ReplyId | libs/ai-gateway/src/lib/omniroute-ai-provider.gateway.ts:246-246 | the reply has the first id that any chunk gives |
| SseReassembly.CallId | libs/ai-gateway/src/lib/omniroute-ai-provider.gateway.ts:231-237 | a call has the last id that its fragments give |
| SseReassembly.MergeCalls | libs/ai-gateway/src/lib/omniroute-ai-provider.gateway.ts:241-251 | merging a delta's fragments brings the map to what the longer sequence of fragments amounts to |
| SseReassembly.MergeAccumulates | libs/ai-gateway/src/lib/omniroute-ai-provider.gateway.ts:241-251 | the map keeps, per index, the last id, the first type and the concatenated name and arguments |
| SseReassembly.StreamsComeOut | libs/ai-gateway/src/lib/omniroute-ai-provider.gateway.ts:237-253 | from any interleaving of the calls' streams each call's fragments come out whole and the calls in the order they started |
| SseReassembly.ReassemblyUndoesFragmenting | libs/ai-gateway/src/lib/omniroute-ai-provider.gateway.ts:217-268 | texts cut in any pieces, streams interleaved in any order, grouped into any two or more deltas: reassembly gives the reply back |
| SseReassembly.EveryArrivalInterleaves | libs/ai-gateway/src/lib/omniroute-ai-provider.gateway.ts:237-253 | whatever order fragments arrive in is such an interleaving of their calls' own streams |
| SseReassembly.EveryReplyCanBeSent | libs/ai-gateway/src/lib/omniroute-ai-provider.gateway.ts:217-268 | every reply can be sent so, its content cut wherever one likes |
| SseReassembly.InterleavingIsFree | libs/ai-gateway/src/lib/omniroute-ai-provider.gateway.ts:237-253 | two interleavings of the same streams reassemble to the same calls in the same order, namely the order they started in |
| ArchiveFilter.FilterArchiveCandidates | tools/cdp-reverse-mona/src/archive.ts:104-134 | the loops split the distinct candidates by the number of pages each is on |
| ArchiveFilter.PagesWithIs | tools/cdp-reverse-mona/src/archive.ts:104-134 | the count of an address is the number of pages it is on, however often it is there |
| ArchiveFilter.KeptAndSuppressedPartition | tools/cdp-reverse-mona/src/archive.ts:129-133 | kept and suppressed partition the distinct candidates; suppressed iff on more than the threshold of pages |
| ArchiveFilter.SplitInOrder | tools/cdp-reverse-mona/src/archive.ts:130-132 | both lists keep the order of the distinct candidates |
| ArchiveFilter.DistinctIsFirstSeen | tools/cdp-reverse-mona/src/archive.ts:112-119 | the distinct candidates are in the order of first sighting |
| ArchiveFilter.FewPagesSuppressNothing | tools/cdp-reverse-mona/src/archive.ts:126-130 | with no more pages than the threshold nothing is suppressed |
| ArchiveFilter.SuppressedBound | tools/cdp-reverse-mona/src/archive.ts:104-134 | the suppressed, times threshold + 1, are at most the sum of the pages' distinct candidates |
| ContactDedupe.CrmService.FindOrCreateByContact | libs/crm-core/src/services/person.service.ts:254-300 | phone first, then email, then a new person with its company linked |
| ContactDedupe.CrmService.AutoLinkCompany | libs/crm-core/src/services/person.service.ts:302-322 | the linked company always exists, so linking never throws |
| ContactDedupe.CrmService.FindOrCreateByEmailDomain | libs/crm-core/src/services/company.service.ts:92-117 | the domain's company, created when new and nameable, none otherwise |
| ContactDedupe.CrmService.LinkPersonToCompany | libs/crm-core/src/services/company.service.ts:119-148 | links once, fails exactly when the company is missing |
| ContactDedupe.DigitsOne | libs/crm-core/src/utils/contact-entries.ts:3-5 | of the characters of a phone exactly the ten digits count (in order, by `DigitsAppend`) |
| ContactDedupe.StoredPhoneKeepsDigits | libs/crm-core/src/utils/contact-entries.ts:3-5 | the phone stored has the digits it was looked up by |
| ContactDedupe.StoredForms | libs/crm-core/src/services/person.service.ts:244-297 | a phone is stored without the white space around it, an address besides in lower case, blank ones not at all |
| ContactDedupe.NewPersonJoins | libs/crm-core/src/services/person.service.ts:276-322 | a contact nobody has becomes one new person with its phone and address, linked to the company of that domain exactly when the address is a likely company's and the domain is known or yields a name; otherwise no link and no company comes |
| ContactDedupe.RunKeeps | libs/crm-core/src/services/person.service.ts:254-322 | every run of calls keeps phones, emails, domains and links free of duplicates and persons unchanged |
| ContactDedupe.RunFromEmpty | libs/crm-core/src/services/person.service.ts:254-322 | the same from an empty tenant |
| ContactDedupe.RepeatIsSilentIff | libs/crm-core/src/services/person.service.ts:254-300 | a repeated call creates nothing exactly when the contact has digits or an email, and then returns the same person |
| ContactDedupe.LaterRepeatIsSameIff | libs/crm-core/src/services/person.service.ts:254-300 | after any further calls the same contact gets the same person, unless found by email while another came to hold the phone |
| ContactDedupe.EmailMatchDrifts | libs/crm-core/src/services/person.service.ts:254-300 | three calls after which the same contact is another person |
| SchemaMerge.MergeFields | tools/cdp-reverse-engineer/src/exporters/schema-exporter.ts:217-226 | for each name the first entry not typed 'null', else the first; sorted, each name once |
| SchemaMerge.BestIs | tools/cdp-reverse-engineer/src/exporters/schema-exporter.ts:217-226 | the choice for a name is its first entry with a type other than null, or its first one if all are null |
| SchemaMerge.MergeIsUnique | tools/cdp-reverse-engineer/src/exporters/schema-exporter.ts:217-226 | that rule determines the result |
| SchemaMerge.MergeIsAssociative | tools/cdp-reverse-engineer/src/exporters/schema-exporter.ts:217-226 | the grouping of merges does not matter |
| SchemaMerge.MergeIsIdempotent | tools/cdp-reverse-engineer/src/exporters/schema-exporter.ts:217-226 | merging a result with itself or its inputs changes nothing |
| SchemaMerge.AddPart | tools/cdp-reverse-engineer/src/exporters/schema-exporter.ts:241-272 | a contribution joins its table or starts it |
| SchemaMerge.BuildMergedTables | tools/cdp-reverse-engineer/src/exporters/schema-exporter.ts:236-276 | one table per name contributed to, sorted, gathering exactly its contributions in order |
| SchemaMerge.ContributionsIff | tools/cdp-reverse-engineer/src/exporters/schema-exporter.ts:236-272 | the contributions to a table are those of responses with a table and fields: the response itself and the arrays in it, with their route labels; any other response contributes nothing |
| SchemaMerge.ContributionsInOrder | tools/cdp-reverse-engineer/src/exporters/schema-exporter.ts:236-272 | they come in the order of the responses |
| SchemaMerge.ContributionsOfOne | tools/cdp-reverse-engineer/src/exporters/schema-exporter.ts:236-272 | a response comes before its arrays, which keep their order |
| SchemaMerge.GatheredBest | tools/cdp-reverse-engineer/src/exporters/schema-exporter.ts:236-276 | a table's entry for a name is the rule's choice over all its contributions |
| SchemaMerge.MutationIff | tools/cdp-reverse-engineer/src/exporters/schema-exporter.ts:241-272 | a table is a mutation exactly when some usable response for it is one; otherwise its first contribution decides |
| UniqueHandle.EnsureUniqueHandle | scripts/db/backfill-user-organizations.js:40-49 | the first free candidate, all before it taken; at most taken + 1 probes when the digits fit |
| UniqueHandle.CandidateReads | scripts/db/backfill-user-organizations.js:47 | the probe after n failures is the base, a hyphen and n in decimal, cut at 100 characters |
| UniqueHandle.CandidatesDiffer | scripts/db/backfill-user-organizations.js:47 | candidates that are not cut are pairwise different |
| UniqueHandle.CandidatesAreFew | scripts/db/backfill-user-organizations.js:47 | a cut candidate repeats one of the uncut or one-digit ones |
| UniqueHandle.ShortBaseEndsSoon | scripts/db/backfill-user-organizations.js:40-49 | pigeonhole: with room for the digits the search ends within taken + 1 probes |
| UniqueHandle.EndsIff | scripts/db/backfill-user-organizations.js:40-49 | the search ends exactly when the base, a one-digit candidate or an uncut one is free |
| UniqueHandle.LongBaseNeverEnds | scripts/db/backfill-user-organizations.js:40-49 | with a base of 100 characters it ends exactly when the base is free |

## Left out

- Donut-sync: overlapping polls inside `SyncProtocol` (`SyncDropped` and `SyncLate` treat a superseded poll on its own, with a successor that is not disturbed), partial errors inside one batch deletion, object sizes, presigned URLs and usage reporting, the per-scope bump of batched uploads (an announcement, as a single one), pings; LastModified is a number without resolution; a bump that fails is a write without a bump in `SyncProtocol` only.
- SyncPolls.GatedEqualsFull: assumes that every HEAD is answered; `SyncProtocol` has failed ones.
- SyncProtocol.SkippedListHidesNothing: speaks of each scope's last listing; with a key in two scopes the known state keeps the later scope's entry, as `Merge` says.
- SyncRuns.DeletePrefixIsARun: a failing delete is a run when no manifest lies under its prefix, because an unannounced step of the protocol touches no manifest; `FailedPrefixIsSilent` has no such assumption.
- SyncLossy.LossyListingIff: assumes the scopes share no key, because a shared one may be lost in one scope and read in the other; `ReadIsViewIff` has no such assumption.
- CrawlerPool: candidate discovery, a progress write that fails between URLs, page extraction, timing of retries, the progress, summary, network and HTML files; page loads and appends succeed or fail as the environment chooses.
- CrawlLog: runs without `resume`, which start from nothing.
- NotifyManager: replacing the notify functions, `batchCalls`, results of a batch; a timer is a FIFO entry.
- ParentLinks.List2TreeHoldsTheRooted: starts from the null root, as all callers do; another root is not modelled.
- MenuRoutes: route texts, meta data and the `pid` field of the menu table; a zero parent id is the absence of a parent. Ids are not zero, as generated keys are: the source would find a directory 0 with parent id 0 below itself and not return.
- TreesInPlace: the node's own fields are constant and the predicate reads only them; a tree whose objects are shared is excluded.
- CrmMigration: custom fields, conversions of names and emails, link and row counts; a Valid database (ids distinct, map entries of the row's tenant) is assumed; the primary keys give the first, the script itself keeps the second from an empty map on (`FirstRunIsValid`), and `EntriesAfterMigrate` needs the distinct ids only.
- CrmMigration.Migration.Run: one process; rows inserted concurrently are not modelled.
- SqlValues: the regular expression that finds the statement, MySQL backslash escapes, identifier quoting, sequences.
- SqlValues.SplitUndoesJoin: literals are quoted strings with doubled quotes or trimmed tokens without quotes and commas.
- SseReassembly: JSON parsing, indices that are not numbers, `extractChatText` and `extractToolCalls`.
- ArchiveFilter: the threshold is a parameter (the source takes the larger of 3 and a twentieth of the pages in floating point); the workers that fetch archive pages.
- ContactDedupe: parsed names, company names, soft deletion, concurrent calls; lower-casing and the address expressions are given functions.
- SchemaMerge: which arrays of a response suggest tables, route classification and type inference; `localeCompare` is a total order without ties between different names.
- UniqueHandle.EnsureUniqueHandle: requires that some candidate is free, because otherwise the source does not return (`EndsIff`).
- `slugify` and the rest of the organisation backfill, archive page discovery, the contact entry builders and the reverse-engineering probes: they would only add easy members or need libraries that are not modelled.

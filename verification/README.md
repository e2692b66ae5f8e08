# Stophammer: a model of the index and its replication

Stophammer is an index of music podcast feeds. A primary node takes submissions
from crawlers, decides which record owns which feed URL, stores each feed with
its tracks and its source claims, and signs a log of events. Community nodes
rebuild the same tables from that log. This project models the decisions of the
primary, the log and its replicas, the search index, and four smaller
algorithms, and proves what they promise over all inputs and all runs.

`dafny verify dfyconfig.toml` verifies the whole project.

## The parts

| part | files | subject |
|---|---|---|
| record ownership | `Cooldown`, `Ownership`, `OwnershipInvariants`, `OwnershipSteps`, `OwnershipRuns`, `OwnershipLaws`, `StaticHosts`, `RecordStore` | which URL a record owns: submissions, moves, returns, relocations, GUID transitions, retirements, gone reports |
| replication | `FeedTables`, `RowLemmas`, `FeedSimulation`, `TrackSimulation`, `IngestSimulation`, `DiffLaws`, `Replication`, `NodeSimulation`, `NodeInvariants`, `NodeLaws`, `NodeStore`, `ReplicaSync` | an overwrite on the primary, the events of its diff, and a replica that sees the events alone |
| search and lookups | `SearchIndex`, `Lookup`, `Keyset` | the index beside the catalog, the two-step publisher lookups, the pages of a search |
| smaller algorithms | `Phrases`, `LiveSelection`, `SseRegistry` | the phrases of a query, the selection of live items, the live channels |
| shared | `Basics`, `Sequences` | small datatypes, filters and permutations |

Each part has two forms. Functions on values say what one writer-lock section or
one transaction does, and the lemmas are about them. Classes (`RecordStore`,
`NodeStore`, `ReplicaNode`, `SearchStore`, `SseRegistry`) hold the tables as
fields and do the same work statement by statement; their methods are proved to
make exactly the step of the function. The files `OwnershipLaws`, `DiffLaws` and
`NodeLaws` say what these functions decide in terms of the submission and the
stored rows alone, with each comparison written out.

## How the model is set up

- A section under the writer lock is one step. A query that can return any of
  several rows, as the query for a conflicting record can, returns any of them.
- The clock, the UUIDv5 test of a GUID (section 5.5 of RFC 9562), the list of
  404 hosts and the hash of an index row are parameters. So are the order of
  a query with ORDER BY, the normalisation of a block value and the
  truncation of an index text.
- 64-bit numbers are integers within bounds. A saturating operation saturates,
  and any other one wraps, because the release profile sets no overflow checks.
- `JSON`, signatures, HTTP and the connection pool are not part of this model.
  A signature counts as verified.
- The diff compares some columns of a row and not others. `fields` holds the
  compared ones in the order of the comparison, `rest` the others.
- The routes of a feed are read with no ORDER BY. The model reads them in the
  order of their inserts, which is the order of their rowids.

## What the proofs show about the code

- ADR 0083 gives a wait after each return. Two returns can have the same time
  when the last one is at the largest 64-bit number, and only then: the end of
  the wait saturates there (`Cooldown.ReturnStrictlyLater`,
  `Cooldown.NoWaitAtTheLastInstant`).
- A GUID transition commits before the ingest transaction. When a third record
  holds the canonical URL, the ingest then fails on the UNIQUE constraint, the
  held record is gone and no record replaces it
  (`OwnershipRuns.UniqueViolationExactly`, `OwnershipRuns.TransitionCanLoseARecord`).
  The comment at `src/api.rs:1239-1256` says that every check that can reject the
  submission has passed by then.
- A body that names one track GUID twice can leave a replica with the first
  copy and the primary with the last (`TrackSimulation.RepeatedTrackDiverges`).
  `IngestSimulation.IngestAgreesExactly` says exactly when the two agree.
- A payment row stores an absent custom key or value as the empty string and
  reads it back as absent. A body whose row has an empty one differs from what is
  stored at every later ingest, so it emits an event each time
  (`DiffLaws.SecondIngestIsSilent`).
- The route for a new block normalises its value, and the insert normalises it
  again; the event carries the first result (`NodeLaws.NewBlockLeaves`).
- A batch that leaves a gap after the cursor moves the cursor past events that
  the replica does not hold, or records IDs ahead of it
  (`ReplicaSync.InStepExactly`).
- A delete from the search index removes the row at the hash of the entity
  also when another entity holds that row (`SearchIndex.RemoveKeepsOthersExactly`).
- `get_publisher_album_release_artists` calls an album a music feed. The code does
  not read the medium, and neither does the model.
- The window of a live item is a 64-bit difference that can wrap
  (`LiveSelection.BanReadsTheWindow`).
- A ring buffer keeps the order of the second lock, which can differ from the
  order of the sends (`SseRegistry.OrdersCanDiffer`).

## Model

| member | source | states |
|---|---|---|
| Cooldown.CooldownEndExact | src/db.rs:7582-7614 | For every 64-bit count the capped shift gives the wait 3600·2^(c-1), at most 604800, with no overflow; only the last addition saturates. |
| Cooldown.ReturnAllowedExactly | src/db.rs:7592-7614 | A return goes on if and only if there was none, 30 days passed, or the ideal wait passed. |
| Cooldown.ReturnStrictlyLater | src/api.rs:2439-2461 | An accepted return within 30 days is strictly later than the last one, with no monotone clock, if the last one is before the largest time. |
| Cooldown.NoWaitAtTheLastInstant | src/db.rs:7611-7613 | At the largest 64-bit time a second return is accepted at once, whatever the count. |
| Cooldown.NextCountExactly | src/api.rs:2511-2514 | A return adds one to the count and stores its time, and starts the count over when there was no return in the 30 days before. |
| Cooldown.CountIsStreak | src/db.rs:7592-7597 | The count is the number of returns since the last gap of 30 days, for each list of returns. |
| Cooldown.SpanFromClock | src/db.rs:7592-7614 | Accepted returns with gaps under 30 days span the sum of the waits that begin at the stored count. |
| Cooldown.ReturnsSpanTheirWaits | src/db.rs:7592-7614 | n returns with gaps under 30 days span at least the first n-1 waits of the table, whatever count came before. |
| Cooldown.ReturnTimesIncrease | src/api.rs:2439-2456 | The times of the returns of a record increase strictly. |
| Cooldown.AtMostElevenReturnsInThirtyDays | src/db.rs:7582-7587 | The twelfth return is 30 days or more after the first, so a half-open window of 30 days holds eleven at most. |
| Cooldown.EarliestReturns | src/db.rs:7605-7614 | Returns at the end of each wait are all accepted, and span exactly the sum of the waits. |
| Cooldown.ElevenReturnsCanFit | src/db.rs:7582-7587 | Eleven accepted returns within 30 days exist, so the bound is tight. |
| RecordStore.RecordStore.ClassifySubmission | src/db.rs:6698-6733 | The class of a submission is the one that the held URL and a conflicting record permit. |
| RecordStore.RecordStore.FindSelfLink | src/api.rs:4010-4014 | The scan finds the URL of the first self link. |
| RecordStore.RecordStore.FindMove | src/api.rs:2408-2507 | The move decision, in the order of its triggers and with the conditions of a return. |
| RecordStore.RecordStore.WriteFeedMove | src/db.rs:7668-7685 | A move adds the old URL, then removes the new one, stores the arrival tag, and the return values of a return alone. |
| RecordStore.RecordStore.WriteRelocationState | src/db.rs:7694-7710 | A relocation keeps the time of the last return, clears the count and marks the arrival tag as pending. |
| RecordStore.RecordStore.ClearArrivalTagUnless | src/db.rs:7646-7664 | A pending tag is set, an equal tag stays, another tag goes. |
| RecordStore.RecordStore.DeleteFeed | src/db.rs:2856-2993 | A delete removes the row, its left URLs, its move state and its gone answers. |
| RecordStore.RecordStore.RetireFeed | src/db.rs:3021-3065 | A retirement with no block keeps a hold of the URL that the record had. |
| RecordStore.RecordStore.IngestTransaction | src/db.rs:6770-7355 | The row is stored with the history of its move, or nothing changes when another record holds the URL. |
| RecordStore.RecordStore.WriteDeclarations | src/api.rs:4010-4028 | The declarations of the body, and the clear of the arrival tag with no move. |
| RecordStore.RecordStore.GuidChangeTransition | src/api.rs:1264-1337 | The old GUID goes with no hold, the first supersession stays, the pending change goes. |
| RecordStore.RecordStore.RecordPendingGuidChange | src/api.rs:1161-1200 | A rejected GUID changes nothing; another one writes or updates the pending row. |
| RecordStore.RecordStore.HandleIngest | src/api.rs:2944-3346 | Each arm of the write phase makes the step of its class, with its answer. |
| RecordStore.RecordStore.AdmitSubmission | src/api.rs:3361-4028 | The track limit, the URL, a transition and the transaction, in that order. |
| RecordStore.RecordStore.HandleSourceGoneReport | src/api.rs:2231-2311 | A counted report of a held URL is recorded, or retires the record a day after the first. |
| RecordStore.RecordStore.RelocateFeed | src/api.rs:5473-5554 | An operator moves a record to a free URL and clears its declarations; a held URL changes nothing. |
| OwnershipInvariants.AdmitUniqueExactly | src/db.rs:6770-6856 | When the UNIQUE constraint refuses the URL of an admission. |
| OwnershipInvariants.AdmitKeepsInv | src/api.rs:3361-4028 | An admission keeps the invariant of the tables. |
| OwnershipSteps.NextRecord | src/api.rs:2944-4028 | What each action leaves of each record, field by field. |
| OwnershipSteps.NextKeepsInv | src/api.rs:2944-4028 | Each action keeps the invariant of the tables. |
| OwnershipSteps.InvAlways | src/api.rs:2944-4028 | The invariant holds in every reachable state. |
| OwnershipRuns.OwnershipInjective | src/db.rs:6698-6733 | In every reachable state two records hold two URLs. |
| OwnershipRuns.UniqueViolationExactly | src/api.rs:3919-3941 | The database refuses a submission exactly when a transition runs and a third record holds the canonical URL. |
| OwnershipRuns.UniqueViolationLosesTheRecord | src/api.rs:3931-3990 | In that case the held record is gone and the declared GUID has no record. |
| OwnershipRuns.TransitionCanLoseARecord | src/api.rs:3931-3990 | A run of three submissions that reaches it. |
| OwnershipRuns.SubmissionFrame | src/api.rs:2944-3346 | A submission changes no record but the declared one and the held one of a transition; conflicts, refused returns and pending changes change none. |
| OwnershipRuns.LeftUrlsAreHistory | src/db.rs:7513-7550 | The left URLs of a record are all URLs it held since its admission, without the one it holds. |
| OwnershipRuns.MoveKinds | src/api.rs:2408-2507 | A source move goes to a URL that is not left, or is an accepted return. |
| OwnershipRuns.NonReturnMoveIsNew | src/api.rs:2436-2440 | A source move that is no return goes to a URL the record never held. |
| OwnershipRuns.ArrivalTagDeclared | src/db.rs:7646-7710 | In every reachable state the arrival tag is absent or is the declared tag. |
| OwnershipRuns.TagReturnNeedsNoArrivalTag | src/api.rs:2445-2462 | A return by a tag happens only with no arrival tag. |
| OwnershipRuns.ReturnsAreAccepted | src/api.rs:2445-2502 | Between two disturbances the returns of a record are accepted returns of its clock. |
| OwnershipRuns.ReturnsBackOff | src/db.rs:7582-7614 | In a run with no relocation and no retirement between them, returns increase, back off, and eleven at most fall in 30 days. |
| OwnershipRuns.FirstGoneAtIsFirstCounted | src/db.rs:5813-5830 | The first gone time is the time of the first counted report since the last body. |
| OwnershipRuns.GoneRetiresAfterADay | src/api.rs:2262-2295 | With a clock after the epoch, a gone source retires a record only after two reports a day apart with no body between them, each of the stored URL itself with 410 or a listed 404. |
| OwnershipRuns.WriteStoresAnOwnUrl | src/api.rs:3435-3442 | A body is stored at one of the two URLs of its submission. |
| OwnershipRuns.ContentHasASource | src/api.rs:2944-3346 | The content of a record came from a submission, and with no relocation since then one of its URLs is the stored one. |
| OwnershipRuns.HoldsAreHistory | src/db.rs:3036-3065 | An active hold names the URL of the last retirement with no block, until a release or an admission. |
| OwnershipRuns.RetiredGuidReturnsFromItsSource | src/api.rs:3082-3114 | A held GUID is admitted as new only from its held URL. |
| OwnershipLaws.SelfLinkIsFirst | src/api.rs:4010-4014 | The declared self link is the URL of the first link of its type, and absent exactly when there is none. |
| OwnershipLaws.RedirectMovesExactly | src/api.rs:2467-2502 | An update has a move decision if and only if its source URL is the stored one, its canonical URL is another one, and it has hops that are all 301 or 308; a target that was left needs the wait. |
| OwnershipLaws.DeclaredMovesExactly | src/api.rs:2418-2466 | For a mirror the declared tag comes before the declared self link; a declared URL that was not left moves the record, and a left one by a tag alone, with the tag in the body, another arrival tag and no wait. |
| OwnershipLaws.UpdateMovesFollowedRedirects | src/api.rs:2467-2502 | In every run a source move of an update went from the stored URL through hops that are all 301 or 308 to its canonical URL. |
| OwnershipLaws.MirrorMovesWereDeclared | src/api.rs:2418-2440 | In every run a source move of a mirror went to a URL that the record had declared. |
| OwnershipLaws.UpdateAnswers | src/api.rs:2951-3080 | An update is stale if and only if both dates are present and the submitted one is smaller; else its source blocks the index, or it has more than 500 tracks, or it is accepted. |
| OwnershipLaws.NewFeedAnswers | src/api.rs:3082-3138 | A new feed is refused for a hold exactly when an active hold of its GUID names neither of its URLs; then the block, then the tracks. |
| OwnershipLaws.GuidChangeAnswers | src/api.rs:3265-3343 | A changed GUID goes on exactly with its origin or an approval of this GUID; else it is rejected by a rejection of this GUID, and pending otherwise. |
| OwnershipLaws.MirrorAnswers | src/api.rs:3139-3244 | A mirror is a conflict exactly when it moves nothing. |
| OwnershipLaws.AcceptedStoresItsBody | src/api.rs:3919-4028 | An accepted submission stores its body, its date and both its declarations. |
| OwnershipLaws.AcceptedTransition | src/api.rs:1264-1337 | An accepted transition retires the held record, admits the declared GUID at the canonical URL, links the old GUID once and removes the pending change. |
| OwnershipLaws.PendingChange | src/api.rs:1161-1200 | A pending change names the held and the declared GUID; a new declared GUID starts with the present time and no decision, a known one keeps both. |
| OwnershipLaws.AcceptedUpdateKeepsDates | src/api.rs:2961-2979 | An accepted update never lowers the stored date, when it has one and one is stored. |
| OwnershipLaws.DatesNeverFall | src/api.rs:2961-2979 | In every run the date of a record never falls while updates alone write it. |
| OwnershipLaws.CountedReportsExactly | src/api.rs:2182-2190 | A report names a record exactly when its URL answered itself with 410, or with 404 from a listed host, and a record stores that URL. |
| OwnershipLaws.GoneRetiresExactly | src/api.rs:2262-2295 | In every run, with times after the epoch, a counted report retires its record exactly when the first counted one came a day before it or earlier. |
| OwnershipLaws.DecideLeaves | src/db.rs:7924-7938 | A decision is written to the row of its URL and to nothing else. |
| OwnershipLaws.DecisionsWereMade | src/db.rs:7851-7875 | In every run a decision at a URL was made by the operator, and the row has named the same GUID since. |
| OwnershipLaws.TransitionsWereAllowed | src/api.rs:3265-3297 | In every run a transition without the origin of its GUID had an approval of that GUID, which has not changed since. |
| StaticHosts.SettledAlways | src/db.rs:7646-7685 | With static hosts a record and its move state agree with what its URL serves, in every reachable state. |
| StaticHosts.NoReturns | src/api.rs:2445-2466 | With static hosts and no redirects no move goes to a URL that the record left. |
| StaticHosts.MovesAreFewerThanUrls | src/api.rs:2408-2466 | With static hosts a record moves fewer times than there are submitted URLs, whatever loops the tags and links form. |
| RowLemmas.DedupeKeepsFirsts | src/db.rs:2116-2134 | One row stays for each key, and it is the first of that key. |
| NodeStore.DedupeRows | src/db.rs:2095-2212 | The loop with its set of seen keys keeps those rows. |
| NodeStore.RowsChanged | src/db.rs:3542-3740 | The comparison in step is true exactly when the lengths or some compared columns differ. |
| NodeStore.BuildDiffEvents | src/db.rs:3758-4167 | The events of a first ingest and of a later one, section by section and track by track. |
| NodeStore.BuildBundleEvents | src/db.rs:4120-4164 | The events of one track, with the event of emptied remote items. |
| DiffLaws.SectionEmitsExactly | src/db.rs:3985-4115 | A later ingest emits an event of a section if and only if the stored rows, as read, and the submitted rows that stay differ in length or in a compared column; a first ingest if and only if a row stays. The event carries those rows. |
| DiffLaws.FeedEmitsExactly | src/db.rs:3981-3984 | The event of the feed row comes first, exactly on a first ingest or when a compared column differs. |
| DiffLaws.TrackEmitsExactly | src/db.rs:4116-4164 | With distinct GUIDs a track emits its row exactly when it is new or a compared column differs, and its items exactly when they differ, or the row goes out and there are some. |
| DiffLaws.SilentExactly | src/db.rs:3981-4164 | An ingest emits no event exactly when no compared column of the feed, a section or a track differs. |
| DiffLaws.SecondIngestIsSilent | src/db.rs:3758-4167 | A body that was just stored emits nothing when it comes again, read in the order of its inserts, exactly when no payment row of it has an empty custom key or value. |
| DiffLaws.StoreChanges | src/db.rs:3430-3500 | What is stored reads back as it was submitted, except for an empty custom key or value of a payment row. |
| DiffLaws.TwoRowsStayExactly | src/db.rs:2095-2212 | For each section, by column, when two rows both stay. |
| NodeStore.NodeStore.IngestTransaction | src/db.rs:6791-7311 | The overwrite of the row, the sections and the tracks, and the removal of each stale track; a held URL changes nothing. |
| NodeStore.NodeStore.HandleIngest | src/api.rs:3895-3990 | The diff before the transition, then the transition, then the overwrite, with the events in that order. |
| NodeStore.NodeStore.RetireFeed | src/db.rs:3021-3140 | A retirement and one event for each new block. |
| NodeStore.NodeStore.RecordCopy | src/api.rs:1012-1102 | A new or changed summary is written with one event, within the limit of 20 rows. |
| NodeStore.NodeStore.InsertFeedBlock | src/db.rs:4708-4728 | A block with a new pair is written and clears the copies of its URL. |
| NodeStore.NodeStore.ApplySingleEvent | src/apply.rs:92-312 | The effect of each event on a replica, or no change when its statement fails. |
| FeedSimulation.CarriedRows | src/db.rs:3612-3740 | The rows of an event store as the overwrite stores the rows of the body. |
| FeedSimulation.UnchangedSection | src/db.rs:3542-3740 | A section with no event already holds what the new rows would store, whatever the order of the query. |
| FeedSimulation.SectionAgrees | src/db.rs:3985-4115 | With an event or without one, a section of the replica agrees with the overwrite, also when it becomes empty. |
| TrackSimulation.TrackEventsApplied | src/db.rs:4116-4164 | What the track events of an ingest leave of each track on a replica. |
| TrackSimulation.TrackAgreesExactly | src/db.rs:4116-4164 | A track of the replica agrees exactly when the last bundle of its GUID emits, or the earlier ones emit nothing else. |
| TrackSimulation.DistinctTracksSettle | src/db.rs:4116-4164 | Distinct track GUIDs give that condition. |
| TrackSimulation.RepeatedTrackDiverges | src/db.rs:4123-4131 | A body with a changed and then an unchanged copy of a stored track does not meet it. |
| IngestSimulation.IngestAgreesExactly | src/db.rs:6791-7311 | An ingest and its events keep two nodes in agreement exactly when the submitted tracks settle. |
| IngestSimulation.TracksAreSubmitted | src/db.rs:7130-7297 | After an ingest the feed holds the submitted tracks and no others, each as its last bundle. |
| IngestSimulation.WriteBodyWellFormed | src/db.rs:6875-7296 | The overwrite leaves rows that read back as they are. |
| NodeSimulation.IngestFollows | src/api.rs:3895-3990 | The same with a GUID transition before the ingest, and with a refused URL. |
| NodeSimulation.ObservationsFollow | src/api.rs:930-956 | The record rule of the primary and the upsert of a replica agree on each URL. |
| NodeSimulation.CopyFollows | src/api.rs:1012-1102 | Copies agree without their last time, through touches, overflow and new summaries. |
| NodeSimulation.RelocationFollows | src/api.rs:5473-5554 | A relocation and its event agree. |
| NodeSimulation.ResolutionFollows | src/api.rs:5725-5800 | The resolution of a copy, with its relocation or without, and its events agree. |
| NodeSimulation.FeedRetirementFollows | src/db.rs:3021-3140 | A retirement with its blocks and its events agree. |
| NodeSimulation.BlocksFollow | src/blocks.rs:72-117 | A list of blocks and its events agree, with ignored ones among them. |
| NodeSimulation.CommitFollowsExactly | src/apply.rs:92-312 | A replica accepts the events of each transaction, and agrees after them exactly when its tracks settle. |
| NodeSimulation.CommitSound | src/db.rs:6770-7355 | Each transaction keeps the tables well formed. |
| NodeSimulation.LogRebuildsThePrimary | src/apply.rs:64-312 | In every reachable state the log of the primary, applied from empty tables, gives its replicated columns; no event of it fails. |
| NodeInvariants.PrimaryKeepsLimits | src/api.rs:1067-1095 | In every run: one feed for each URL, 20 copies of a feed at most, one row for each blocked value. |
| NodeInvariants.ReplicaKeepsLimits | src/apply.rs:187-236 | A node rebuilt from the log keeps the same limits, though it never counts copies. |
| NodeInvariants.BlockClearsItsCopies | src/db.rs:4708-4728 | A new URL block clears the copies of its URL and no other; an ignored block clears none. |
| NodeInvariants.LinkStays | src/db.rs:7950-7973 | The link of a superseded GUID never changes. |
| NodeLaws.ObservationsNameTheGuid | src/api.rs:930-956 | Both URLs of a submission name its GUID afterwards, with a new time only when they did not name it before; each other URL stays, and each changed row gives one event. |
| NodeLaws.ObservationsAreLast | src/db.rs:4635-4662 | In every run a URL names the GUID of the last submission observed there, and has no row without one. |
| NodeLaws.RelocationLeaves | src/api.rs:5473-5554 | A relocation stores the URL, drops the build date and changes nothing else of any feed; a held URL changes nothing. |
| NodeLaws.ResolutionLeaves | src/api.rs:5725-5800 | A resolution writes its decision with the digests of the copy; the feed has the URL of the copy after a relocation and its own URL otherwise; with no feed, no copy or a held URL nothing changes. |
| NodeLaws.CopyLeaves | src/api.rs:1012-1102 | A copy is marked as seen now and keeps its first time and its resolution; its event goes out exactly when it is new or a compared column changed; a new one over the limit only counts. |
| NodeLaws.NewBlockLeaves | src/api.rs:5200-5260 | With a fresh ID, a new block of a known pair changes nothing; another one adds its row, with the value normalised twice and an event with the value normalised once. |
| NodeLaws.DeletedBlockLeaves | src/db.rs:4741-4747 | A deleted block goes with one event and all else stays; an unknown one changes nothing. |
| NodeLaws.TrackRemovalLeaves | src/db.rs:3156-3194 | A removed track goes with its items and each other track of the feed stays. |
| NodeLaws.RetirementLeaves | src/db.rs:3021-3140 | A retired feed has no row, track, copy or count left, each other feed stays, and its event comes before those of its blocks. |
| ReplicaSync.InsertKeepsNumbers | src/db.rs:4484-4531 | Inserts number the events 1, 2, … in their order. |
| ReplicaSync.GetEventsSince | src/db.rs:6187-6249 | The scan gives the rows after a number, up to the limit, for each number and each limit. |
| ReplicaSync.HandleSyncEvents | src/api.rs:4242-4268 | A page of a clamped limit, whether it is full, and the number of its last event. |
| ReplicaSync.ReadRest | src/community.rs:223-301 | Pages asked for while one is full end, and are exactly the rest of the log, also when the last page is full. |
| ReplicaSync.ReplicaNode.ApplyEvents | src/apply.rs:480-531 | The batch loop delivers each new event once and moves the cursor to the highest number seen. |
| ReplicaSync.CursorExactly | src/apply.rs:480-531 | A batch moves the cursor to the highest number of an event that was known or succeeded, and never back. |
| ReplicaSync.ReceiveKeepsInStep | src/apply.rs:480-531 | A part of the log that begins at or before the next event keeps the replica in step, with any overlap. |
| ReplicaSync.GapLosesStep | src/apply.rs:497-531 | A part that begins later puts it out of step. |
| ReplicaSync.InStepExactly | src/apply.rs:480-531 | A part keeps the replica in step exactly when it leaves no gap. |
| ReplicaSync.AlwaysInStep | src/db.rs:6394-6409 | Through any such deliveries the applied events are those up to the cursor, and the cursor never decreases. |
| ReplicaSync.ReplicaMatchesThePrimary | src/apply.rs:64-312 | A replica whose cursor stands at the end of a transaction holds the replicated columns that the primary had then. |
| ReplicaSync.ReplicaNode.Drain | src/community.rs:223-301 | The drain loop keeps the replica in step, and reaches the end of the log or reads 100 full pages. |
| SearchIndex.SearchStore.PopulateSearchIndex | src/search.rs:91-156 | Both tables get the row at the hash, unless another entity holds it. |
| SearchIndex.SearchStore.DeleteFromSearchIndex | src/search.rs:167-191 | Both tables lose the row at the hash. |
| SearchIndex.SearchStore.SyncSourceReadModels | src/db.rs:1556-1618 | The rebuild of a feed, its publisher row and its tracks. |
| SearchIndex.SearchStore.IngestFeed | src/db.rs:7266-7340 | The tables, the stale tracks and the rebuild of an ingest. |
| SearchIndex.SearchStore.DeleteFeedRows | src/db.rs:2856-2873 | The index rows of a feed go before its rows. |
| SearchIndex.AlwaysConsistent | src/search.rs:91-191 | In every run, with collisions or without, the two tables hold the same rowids and each row is at its own hash. |
| SearchIndex.SyncFeedIndexed | src/db.rs:1556-1618 | A rebuild sets each entity of the feed to what the catalog gives and leaves each other one. |
| SearchIndex.IndexIsExpected | src/db.rs:1556-1618 | With no collision, after any run the index holds one truncated row for each music feed, publisher feed and track of a music feed, and no other. |
| SearchIndex.IndexedColumns | src/db.rs:1556-1618 | After any run with no collision: the artist, title and description of a music feed, a publisher feed and a track of a music feed, each truncated, and no row for another medium. |
| SearchIndex.UnknownFeedHasNoRow | src/db.rs:2856-2873 | After any run with no collision a feed that the catalog lacks has no row of any kind. |
| SearchIndex.RemoveKeepsOthersExactly | src/search.rs:167-191 | A delete leaves another entity exactly when their hashes differ. |
| SearchIndex.OneFeedType | src/db.rs:1563-1586 | A feed has a row as music or as publisher, never both. |
| Lookup.ResolveListedFeed | src/db.rs:5856-5886 | The GUID, then an observation of an indexed feed, then the stored URL. |
| Lookup.GetFeedsNamingFeed | src/db.rs:6038-6112 | The two steps give exactly the feeds with a publisher item that resolves to the target, or declares it and resolves to nothing. |
| Lookup.GetPublisherAlbumArtists | src/db.rs:5926-6012 | The two steps and the filter give exactly the artists of the albums whose item resolves to the publisher. |
| Lookup.TwoStepsSuffice | src/db.rs:6038-6112 | A feed that the full scan finds declares the GUID, or one URL of a held target. |
| Keyset.WheresKeepTheRest | src/search.rs:580-588 | Under SQL three-valued logic each condition keeps exactly the rows after the row of the cursor. |
| Keyset.NullTestIsNeeded | src/search.rs:699-709 | Without the test for null a dated cursor would lose each row with no date. |
| Keyset.ResultOrder | src/search.rs:636-747 | The sorted result holds each row once: the lowest rank first, or the newest date first and no date last, and ties by rowid. |
| Keyset.PageIsNext | src/search.rs:636-637 | The page after row k is the sorted list from there, up to the limit. |
| Keyset.FollowCursors | src/query.rs:5680-5705 | For each page size the pages are the full sorted result, with no row repeated and none left out. |
| Keyset.MergedQueryIsOneQuery | src/query.rs:5619-5645 | The merged and cut pages of feeds and tracks are one page of both. |
| Phrases.PushWords | src/search.rs:222-227 | Each word is quoted with its quotes doubled. |
| Phrases.Fts5Phrases | src/search.rs:201-219 | The loop over the shrinking rest prints exactly the intended phrases. |
| Phrases.Fts5QueryFromWords | src/search.rs:234-236 | A reader of quoted strings gets the intended phrases back from the query. |
| Phrases.QuotedTextIsOnePhrase | src/search.rs:205-217 | Text between two quotes gives exactly one phrase between the words before it and the phrases after it: the words of the text with one blank between two; a text of spaces gives none. |
| Phrases.UnquotedTextIsWords | src/search.rs:205-219 | With one quote or none each word is a phrase. |
| Phrases.WordsOfWord | src/search.rs:222-227 | A text with no space is one word. |
| Phrases.WordsAtSpace | src/search.rs:222-227 | A space divides the words before it from those after it. |
| Phrases.WordsOfJoined | src/search.rs:210-214 | Joined words are read as the same words, with one blank between two. |
| Phrases.CleanDropsExactly | src/search.rs:201-202 | Each control character goes, and no other character. |
| Phrases.WordsHaveNoSpace | src/search.rs:222-227 | A word is not empty and holds no space. |
| Phrases.LexJoined | src/search.rs:222-236 | Reading undoes printing, for any list of phrases. |
| Phrases.LexedIsPrinted | src/search.rs:222-236 | Printing undoes reading: a text that reads as these phrases is the one that the printer writes. |
| Phrases.TextIsKept | src/search.rs:201-219 | The text of the input is the text of the phrases, in its order. |
| Phrases.OneQuoteAtMost | src/search.rs:193-199 | One quote stays when the input has an odd number of them, else none. |
| Phrases.QueryMeansItsPhrases | src/search.rs:193-236 | For any input: the round trip, the kept text, the one quote, and phrases that are neither empty nor hold a control character. |
| LiveSelection.SelectLiveItems | src/live.rs:75-176 | The five loops keep the selected items and give the warnings of each step, in order, one for each dropped item. |
| LiveSelection.KeepActive | src/live.rs:125-142 | Step 4 keeps the first ten active items and warns for each other one. |
| LiveSelection.KeepEnded | src/live.rs:144-168 | Step 5 keeps the first ten sorted items and warns for each other one. |
| LiveSelection.BanReadsTheWindow | src/live.rs:46-54 | The ban agrees with the real window exactly outside the wraps of the difference. |
| LiveSelection.SelectedAreGood | src/live.rs:60-74 | The kept items are a sublist with distinct GUIDs, known statuses and no banned item. |
| LiveSelection.SurvivesExactly | src/live.rs:77-123 | An item reaches the limits exactly when its status is one of three, no known item of its GUID stands before it, and it is not live with neither a relay link nor a window of six hours at most. |
| LiveSelection.LimitsHold | src/live.rs:125-168 | Ten ended items at most, and ten others. |
| LiveSelection.WarningsAreTrue | src/live.rs:75-168 | Each warning names an item of the feed that its rule drops. |
| LiveSelection.KeptIsFirstOfItsGuid | src/live.rs:97-123 | A kept item is the first of its GUID among the known ones; a banned first item takes its GUID along. |
| LiveSelection.ActiveAreFirst | src/live.rs:125-142 | A kept item that has not ended stands before each dropped one; one is dropped only when ten are kept. |
| LiveSelection.EndedAreNewest | src/live.rs:144-168 | A dropped ended item starts no later than any kept one, no start counts as the oldest, equal starts go by RSS order; one is dropped only when ten are kept. |
| LiveSelection.SelectIsIdempotent | src/live.rs:75-176 | A selection of the kept items keeps them all. |
| SseRegistry.SecondCheckPasses | src/api.rs:330-339 | The second capacity check never drops a frame that the first one accepted. |
| SseRegistry.NextBounded | src/api.rs:240-347 | Each step keeps rings within channels and channels and connections within their caps. |
| SseRegistry.NextLosesNothing | src/api.rs:295-347 | Each frame that was sent was appended or waits at the second lock. |
| SseRegistry.AlwaysInvariant | src/api.rs:240-347 | In every interleaving: the bounds, the last 100 appended frames in each buffer, and no frame lost. |
| SseRegistry.RingsHoldTheLast | src/api.rs:330-346 | In every interleaving a buffer holds the last 100 appended frames, or all of them when there are fewer. |
| SseRegistry.PublishDropsExactly | src/api.rs:305-327 | A publish drops its frame exactly when its channel is missing and 10,000 others exist. |
| SseRegistry.SubscribeLeaves | src/api.rs:265-290 | A subscriber gets a channel that exists or that fits under the limit, in one section or in two, and no frame changes. |
| SseRegistry.ConnectionsExactly | src/api.rs:240-254 | A connection is taken exactly while fewer than 1,000 clients have one, and a release gives it back. |
| SseRegistry.QuietRings | src/api.rs:330-346 | With no publish between its locks a channel and its appended frames hold the same frames. |
| SseRegistry.OrdersCanDiffer | src/api.rs:295-347 | A run in which a buffer has the other order than the sends. |
| SseRegistry.SseRegistry.Publish | src/api.rs:295-347 | An uninterrupted publish sends its frame and buffers it among the last 100, and changes no other feed, or changes nothing when the registry holds 10,000 other channels. |

## Left out

- NodeSimulation.LogRebuildsThePrimary: leaves out the payment routes and the value-time splits of a track, because a change of these alone emits no event, the columns that no comparison reads, and `feed_guid_changes`, whose old GUID can change with no event.
- NodeSimulation.LogRebuildsThePrimary: needs the condition of `IngestSimulation.IngestAgreesExactly` for each ingest; without it the property is false.
- ReplicaSync.ReplicaMatchesThePrimary: is about parts of the log with no gap and about no database error other than the UNIQUE constraint of `feed_url`.
- SearchIndex.IndexIsExpected: needs a hash with no collision among the entities of the run; `SearchIndex.RemoveKeepsOthersExactly` shows why.
- Keyset.FollowCursors: takes finite ranks as real numbers over fixed data, so it does not model NaN or writes between pages.
- SseRegistry.AlwaysInvariant: does not model the lag of a slow receiver or a poisoned lock.
- Remote items with one position twice and other UNIQUE or CHECK constraints than the URL: the ingest transaction rolls back, as it does for a held URL.
- The verifier chain and the answer for an unchanged body: neither changes a table of this model but the URL observations.
- Quality scores, the display of URLs, filters of a search other than its cursor, and the encoding of cursors.
- GUIDs that differ in letter case, and holds on the path of a transition: the code reads holds for a new feed alone.
- Crashes between transactions, migrations and repairs: a run begins with empty tables of the current schema.
- The reconcile route and its caps, push retries and the eviction of peers.
- The operator routes for a release, a decision and a retirement have functions in `Ownership` and no method, because each is one statement or one call.
- Hashes, signatures and random identifiers: events have distinct IDs.

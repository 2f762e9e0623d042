# A verified model of the newsroom's tables

This project models four parts of the platform and proves what they promise.

**The editorial room.** Artifacts wait in `artifacts`, mirrored by the status-partitioned
index `artifacts_pending`; their texts are in `artifact_content` and the day-ahead lineup is in
`to_compose`. `ArtifactStore` holds every store operation as a method that makes the table
writes in their order, next to a function saying what it means; `ToComposeSelection` and `Reclaim`
do the same for select, reset, reselect and the recovery of picks that were never composed.
The laws are proved about the functions and carried to the tables by the methods' contracts:
`ArtifactHistory` and `ArtifactPriority` (accumulated updates and the score for being passed
over), `InsertLaws`, `PinningLaws`, `PlatformRanking` (the platform picks against every other
choice that meets the pool floors), `SelectionLaws`, `ReclaimLaws`, `ReclaimPins`, `DryRunBoosts`,
`EditorialRuns`, which runs any sequence of operations, and `CrowdingRuns`, which says over
whole runs when a service or a day gets two pending artifacts. `RoomWitnesses` holds runs from
empty tables on which a documented property fails.

**Articles.** `ArticleTagIndex` and `ArticleTransitions` hold the `articles` table, where a status move is a
delete plus an insert because status, year and publication time are in the key, and
`articles_by_tag`, which has to follow it. `Slugs` holds the slug passes and the search for a free slug.
`PublishGuard` is the article object with publish, hold, delete and ensure_slug;
`ArticleLaws` and `PublishLaws` are about runs of those steps, `ArticleWitnesses` holds tables on
which a documented property fails.

**The line diff.** `LineDiff` fills the table of common-subsequence lengths in place, walks
it, and proves that no edit script is shorter and that its script is the first of the shortest.

**The block exporter.** `ConduitExporter` writes a block in four ordered steps and may stop before any
of them; `ConduitLaws` runs deliveries, stops and restarts.

Reading guide: a `Room` (or `Tables`, or `Db`) is the contents of the tables; a `Finding` is a
selected artifact whose day has passed; a `Listed` row is a row of the pending listing, in
priority order. Service ids and venues use "" for "not set". `WithinLimit` says that the pending
partition has at most the 2000 rows one scan reads.

## Where the code and its documentation part

The model follows the code. Wherever the behaviour differs from what is documented, the exact condition is
proved, and a lemma gives an input on which the documented property fails.

- "At most one PENDING artifact per service": every operation keeps it but a revert, reset or reclaim, and those if
  and only if nothing they bring back has the service of something else pending or brought back
  (`CrowdingRuns.OnePerServiceRunIff`; `RoomWitnesses.RevertCrowds`).
- "One pin per day": likewise, for the days of the pins (`CrowdingRuns.OnePinRunIff`;
  `RoomWitnesses.RevertSharesAPin`).
- `mark_artifact_status` with the status pending on an artifact that is not pending loses the index
  (`ArtifactStore.Store.MarkArtifactStatus`; `RoomWitnesses.MarkingPendingLosesTheIndex`); every other use
  keeps it.
- A dry run is said to report what a real run would do. Actions and target days agree always, boosted
  priorities if and only if no platform pick follows a revert that lands above both the pool and the pick
  (`DryRunBoosts.DryRunIsExactIff`; `RoomWitnesses.DryRunMisleads`).
- A carried-forward pin "never steals" an unrelated pin. A pin that was pending before the call is lost if and only if
  it is for the day after the probe's 366 and the probe finds no day for some pick (`PinningLaws.PendingPinKeptIff`). A
  platform pick reverted in the same call loses its pin if and only if its day is one the human picks found after
  it are carried to, which the open days' ranks tell (`PinningLaws.PlatformPinKeptIff`;
  `RoomWitnesses.PlatformPinLost`).
- A select strands a pick if and only if the day's rows still name a selected artifact
  (`EditorialRuns.NeverStrandedIff`; `RoomWitnesses.SelectTwiceStrands`).
- `_purge_other_to_compose_rows` deletes the artifact's rows of every day, the given one included, although it speaks
  of other days; the select has just emptied that day, so only the wording differs.
- The score for being passed over is said to keep rising with every ignored cycle. It never rises past the cap, and it
  rises at every cycle below it if and only if the maximum, rounded to four places, is at least the cap's number of
  ten-thousandths (`ArtifactPriority.EveryCycleRaisesIff`; `ArtifactPriority.SecondCycleRaisesNothing`).
- The cap on old text bounds nothing if and only if it is configured to 0 or less
  (`ArtifactHistory.CapBoundsIffPositive`; `ArtifactHistory.CapOfZeroKeepsAll`).
- The slug clamp is said never to cut a word; `Slugs.ClampCutsAWordIff` says when it does
  (`Slugs.LongWordIsCut`).
- A slug claim for an article object loaded earlier can make the tag index disagree;
  `ArticleLaws.SlugAgreesIff` says when it does not (`ArticleWitnesses.OutdatedTagsDisagree`).
- A publish gives a service a second published article if and only if the row's service has one already
  and the guard, which looks for the object's service id in its trimmed and lower-cased form, does not find one
  (`PublishLaws.PublishGuardsIff`). That happens when the other one is stored under an id that is not normalised
  (`ArticleWitnesses.UnnormalisedRivalIsMissed`) and when the object's service id is not its row's
  (`ArticleWitnesses.WrongServiceIsMissed`).
- `publish` is said to raise nothing but the duplicate error; when all 999 slug candidates are taken it raises
  after the row has been released, leaving a published row without a slug (`PublishLaws.PublishSlugsIff`;
  `ArticleWitnesses.SluglessIsReleased`).

## Model

| member | source | states |
|---|---|---|
| ArtifactStore.Store.InsertArtifact | shared/algorand_shared/artifact_store.py:210-288 | the scan, the discarding of the superseded row and the three inserts leave the tables as `Inserted` says, with the pending index exact |
| ArtifactStore.Store.UpdateArtifactPriority | shared/algorand_shared/artifact_store.py:471-513 | deleting and reinserting the index row under its new priority keeps the index exact, and nothing but the priority and its time changes; an unknown id changes nothing |
| ArtifactStore.Store.MarkArtifactStatus | shared/algorand_shared/artifact_store.py:516-541 | the new status, and the index stays exact if and only if the call does not bring a non-pending artifact to pending |
| ArtifactStore.Store.RevertArtifactToPending | shared/algorand_shared/artifact_store.py:544-585 | only a SELECTED artifact is reverted, with its index row back in full |
| ArtifactStore.Store.PinArtifactForDay | shared/algorand_shared/artifact_store.py:588-635 | every other listed holder of the day is unpinned, then this artifact is pinned, in both tables; refused unless it is pending |
| ArtifactStore.Store.ClearArtifactPin | shared/algorand_shared/artifact_store.py:638-652 | the pin goes from the artifact and from its index row |
| ArtifactStore.Store.SetArtifactVenueServiceId | shared/algorand_shared/artifact_store.py:655-675 | the venue is set in both tables |
| ArtifactStore.Store.SweepArtifactPriorities | shared/algorand_shared/artifact_priority.py:371-384 | every listed artifact is rescored and no other, with the index exact all along although each step moves a row of the listing being walked |
| ArtifactTables.PendingListFacts | shared/algorand_shared/artifact_store.py:403-425 | the listing shows distinct pending artifacts as their rows stand, by falling priority and rising creation time |
| ArtifactTables.ListingTold | shared/algorand_shared/artifact_store.py:403-425 | higher priority first and, of equal priority, the older first; up to 2000 rows nothing pending is missing, beyond that only what comes last |
| ArtifactTables.IndexAfterUpdate | shared/algorand_shared/artifact_store.py:484-513 | rewriting one artifact changes the index at that artifact's old and new keys and nowhere else |
| ArtifactHistory.CapKeepsSuffix | shared/algorand_shared/artifact_store.py:305-315 | a trimmed old part is the marker and then a suffix of the old text, at most the cap and above 0.7 of the cap less 2 long; it opens behind the surviving text's first paragraph break exactly when that starts in the first 30% |
| ArtifactHistory.CapBoundsIffPositive | shared/algorand_shared/artifact_store.py:307-309 | the cap bounds the old part if and only if it is at least one character |
| ArtifactHistory.CapOfZeroKeepsAll | shared/algorand_shared/artifact_store.py:307-315 | a cap of 0 keeps the whole old text |
| ArtifactHistory.MergedIsHeaded | shared/algorand_shared/artifact_store.py:347-353 | the merged text opens with the heading of the older update's own title, and the heading of the newer title stands behind the divider and directly ahead of the newer text |
| ArtifactHistory.HistoryIsKept | shared/algorand_shared/artifact_store.py:359-372 | after k further updates the trail is one entry per superseded update, in order, each with that update's own metadata, title, url and dates, and the newest title and metadata win |
| ArtifactHistory.NewestTextIsWhole | shared/algorand_shared/artifact_store.py:349-357 | the newest text closes the stored text untrimmed |
| ArtifactHistory.OldTextSurvives | shared/algorand_shared/artifact_store.py:346-357 | ahead of the newest text stands all of the text merged from, or beyond the cap a long suffix of it |
| ArtifactHistory.NothingIsLostWithinCap | shared/algorand_shared/artifact_store.py:346-357 | while the accumulated text has stayed within the cap every update's text is in it word for word |
| ArtifactHistory.HistoryIsBounded | shared/algorand_shared/artifact_store.py:346-357 | the stored length has one bound for chains of every length |
| ArtifactPriority.SkipCountInRange | shared/algorand_shared/artifact_priority.py:326-333 | the rounded score stays between 0 and the rounded maximum and never falls as the trail grows |
| ArtifactPriority.ScoreTold | shared/algorand_shared/artifact_priority.py:326-333 | the score is the trail's length over the larger of the cap and 1, at most 1, times the maximum, to the nearest ten-thousandth, ties to even |
| ArtifactPriority.RisesUpToCapIff | shared/algorand_shared/artifact_priority.py:326-333 | each of the first `cap` segments raises the rounded score if and only if the rounded maximum has a ten-thousandth for each |
| ArtifactPriority.SweepRescoresAllPending | shared/algorand_shared/artifact_priority.py:371-384 | under the row limit a sweep gives every pending artifact the score of its own columns and content and changes no other |
| ArtifactPriority.NeglectRaisesIff | shared/algorand_shared/artifact_priority.py:301-333 | past the cap one more ignored update raises nothing; with such a maximum it raises the rounded score if and only if the accumulated trail is shorter than the cap |
| ArtifactPriority.EveryCycleRaisesIff | shared/algorand_shared/artifact_priority.py:301-333 | every cycle below the cap raises the score of every chain of updates if and only if the maximum is such |
| ArtifactPriority.SecondCycleRaisesNothing | shared/algorand_shared/artifact_priority.py:331-333 | with a cap of 100000 and the default maximum a second ignored update scores as the first |
| InsertLaws.InsertConserves | shared/algorand_shared/artifact_store.py:210-288 | the pending count of a named service goes from c to max(1, c), pinned days keep their multiplicity, no venue is lost, other services are untouched |
| InsertLaws.InsertBringsTheRequest | shared/algorand_shared/artifact_store.py:210-288 | the new row holds the request's columns at priority 0, its content has the newest title and fields, and no other content or lineup row changes |
| InsertLaws.InsertHeads | shared/algorand_shared/artifact_store.py:219-239 | the text stored over a discarded artifact names that artifact's update as the earlier one and the request as the latest |
| InsertLaws.InsertDiscardsTheFirst | shared/algorand_shared/artifact_store.py:218-262 | of several pending artifacts of the service the one first in the listing is discarded, and no other |
| InsertLaws.InsertTracks | shared/algorand_shared/artifact_store.py:206-288 | an insert extends the accumulated content of its own service by that update and leaves every other service's content alone |
| PinningLaws.PinIsExclusive | shared/algorand_shared/artifact_store.py:609-635 | under the row limit the pinned artifact is the day's only pending holder and nothing else of any artifact changes |
| PinningLaws.PinKeepsOnePerDay | shared/algorand_shared/artifact_store.py:614-635 | a pin keeps one pin per day |
| PinningLaws.RevertKeepsOnePerServiceIff | shared/algorand_shared/artifact_store.py:563-585 | a revert keeps one pending artifact per service if and only if the service has nothing else pending |
| PinningLaws.RevertKeepsOnePinIff | shared/algorand_shared/artifact_store.py:563-585 | a revert keeps one pin per day if and only if no pending artifact holds the day |
| PinningLaws.PlatformPinKeptIff | shared/algorand_shared/to_compose_selection.py:626-684 | a reclaimed platform pick keeps its pin if and only if its day is none the human picks found after it are carried to: by the rank of an open day, and by the day after the window |
| PinningLaws.PendingPinKeptIff | shared/algorand_shared/to_compose_selection.py:516-522 | a pin pending before the call is lost if and only if it is for the day after the window and the window has too few open days |
| PlatformRanking.RankPlatformPicks | shared/algorand_shared/to_compose_selection.py:161-195 | the loop over the listing and the floor cuts give the picks `RankedPicks` describes |
| PlatformRanking.FloorsFit | shared/algorand_shared/to_compose_selection.py:178-184 | for a share in [0, 1] the two epsilon-corrected floors are never negative and never exceed the slots together |
| PlatformRanking.PoolsAreTold | shared/algorand_shared/to_compose_selection.py:116-119 | the new-service pool is the rows whose trimmed, lower-cased venue, or service where there is no venue, is not blank and not published; the update pool is all others |
| PlatformRanking.FloorsAreTold | shared/algorand_shared/to_compose_selection.py:178-184 | for a share in [0, 1] each floor is the greatest whole number not above slots times share plus a billionth |
| PlatformRanking.PicksMeetFloors | shared/algorand_shared/to_compose_selection.py:186-195 | of the rows whose venue, or for want of one service, has no published article the picks hold at least min(floor, number), and likewise of the others, each floor the whole slots in its share, a billionth forgiven |
| PlatformRanking.PicksDominate | shared/algorand_shared/to_compose_selection.py:186-195 | in every prefix of the priority order the picks hold at least as many rows as any set of their size that meets the floors |
| PlatformRanking.PicksMaximisePriority | shared/algorand_shared/to_compose_selection.py:186-195 | no such set has more total priority |
| PlatformRanking.EligibleExactly | shared/algorand_shared/to_compose_selection.py:161-173 | a listed row competes if and only if it is not the human pick, not of its service, and no row ahead of it has its service |
| PlatformRanking.RankingIsOptimal | shared/algorand_shared/to_compose_selection.py:121-195 | the whole ranking: sorted, distinct in artifact and service, exactly min(slots, eligible) long, both floors met, and optimal |
| ToComposeSelection.SelectToComposeForDay | shared/algorand_shared/to_compose_selection.py:229-278 | clearing the day and inserting slot by slot, each with its purge and status move, places the lineup as a whole |
| ToComposeSelection.PurgeOtherToComposeRows | shared/algorand_shared/to_compose_selection.py:281-301 | no row names the artifact any more, and no other row is touched |
| ToComposeSelection.InsertSlot | shared/algorand_shared/to_compose_selection.py:304-314 | the artifact is named by the new row alone and is SELECTED |
| ToComposeSelection.ResetToComposeForDay | shared/algorand_shared/to_compose_selection.py:341-393 | the day is empty, exactly its still SELECTED artifacts are PENDING again, and the report tells the reverted from the skipped in slot order, each skipped one with the status it was found in |
| ToComposeSelection.RowsForDayInOrder | shared/algorand_shared/to_compose_selection.py:317-338 | the rows read for a day are the stored ones, each once, by rising slot |
| ToComposeSelection.ResetAndReselectForDay | shared/algorand_shared/to_compose_selection.py:396-405 | a reset and then a select over the widened pool |
| SelectionLaws.HumanSlot | shared/algorand_shared/to_compose_selection.py:242 | there is a human pick if and only if a pending artifact is pinned for the day, and it is one |
| SelectionLaws.HumanPickIsFirst | shared/algorand_shared/to_compose_selection.py:242 | of several artifacts pinned for the day the one ahead in priority order takes the slot |
| SelectionLaws.LineupContract | shared/algorand_shared/to_compose_selection.py:229-278 | slots 0 to k-1, where k is the lesser of the daily maximum and the competing artifacts plus one if an artifact is pinned, so an unpinned day has the maximum to fill; slot 0 human if and only if pinned, artifacts and named services distinct, exactly the lineup moved from PENDING to SELECTED, other days' rows otherwise kept |
| SelectionLaws.EligibleCompete | shared/algorand_shared/to_compose_selection.py:161-173 | the eligible rows are the pending artifacts ahead of all others of their service, without the human pick and its service |
| SelectionLaws.SelectIsOptimal | shared/algorand_shared/to_compose_selection.py:229-278 | the artifacts in the day's stored platform rows meet both floors and no equally large set that does has more total priority |
| SelectionLaws.LineupRow | shared/algorand_shared/to_compose_selection.py:254-268 | each row names its artifact, that artifact's own service, its lane and the time of the select |
| SelectionLaws.PlatformSlotsInOrder | shared/algorand_shared/to_compose_selection.py:261-268 | platform slots run in priority order |
| SelectionLaws.VenueDecidesPool | shared/algorand_shared/artifact_store.py:655-675 | once a pending artifact has a venue its pool depends on the venue alone |
| SelectionLaws.ResetAfterProgress | shared/algorand_shared/to_compose_selection.py:366-393 | after select, any composes and discards and a reset, the rows are back, the picks still SELECTED are back, the others stay resolved |
| SelectionLaws.ResetUndoesSelect | shared/algorand_shared/to_compose_selection.py:366-393 | with nothing in between the whole room is restored |
| SelectionLaws.RedoIsSelect | shared/algorand_shared/to_compose_selection.py:396-405 | redoing the picks in an otherwise unchanged room picks the same lineup again |
| Reclaim.FindStaleSelectedArtifacts | shared/algorand_shared/to_compose_selection.py:450-477 | the scan loop gives the findings `Stale` describes, for any order of the scan |
| Reclaim.NextOpenDayForPin | shared/algorand_shared/to_compose_selection.py:516-522 | the day-by-day loop is the bounded probe |
| Reclaim.ReclaimStaleSelectedArtifacts | shared/algorand_shared/to_compose_selection.py:619-686 | a dry run changes no table and reports the plan; a real run leaves the tables and the report as `RealReclaim` says |
| ReclaimLaws.NextOpenDayIsEarliest | shared/algorand_shared/to_compose_selection.py:516-522 | with fewer than 366 blocked days among the next 366 the probe returns a day nobody has claimed and no row stands on, and every earlier one is claimed or has a row |
| ReclaimLaws.FoundIffStale | shared/algorand_shared/to_compose_selection.py:450-477 | a row is found if and only if it is past and names a SELECTED artifact |
| ReclaimLaws.FindingsTold | shared/algorand_shared/to_compose_selection.py:450-477 | each SELECTED artifact a past row names is found once, at such a row with its columns, and as current if and only if a row of today or later names it too |
| ReclaimLaws.CurrentPicksStay | shared/algorand_shared/to_compose_selection.py:633-643 | no row of today or later goes, and a SELECTED artifact such a row names is not touched whatever past rows name it |
| ReclaimLaws.StaleRowsGo | shared/algorand_shared/to_compose_selection.py:619-686 | the rows deleted are exactly the past rows of SELECTED artifacts |
| ReclaimLaws.DryRunForetells | shared/algorand_shared/to_compose_selection.py:619-686 | a dry run reports the artifacts, actions and target days of the real run from the same state, in the same order |
| DryRunBoosts.DryRunIsExactIff | shared/algorand_shared/to_compose_selection.py:661-684 | the two reports agree in the boosts too if and only if no platform pick follows a revert landing above both the pool and that pick |
| DryRunBoosts.DryBoosts | shared/algorand_shared/to_compose_selection.py:665-671 | a dry run announces for a platform pick exactly one above the highest of the pool's priorities and its own |
| DryRunBoosts.EqualPicksMislead | shared/algorand_shared/to_compose_selection.py:661-684 | so two platform picks of equal priority are never foretold |
| ReclaimLaws.ReclaimClears | shared/algorand_shared/to_compose_selection.py:619-686 | after a real reclaim no past row names a SELECTED artifact and a second one finds nothing |
| ReclaimPins.PassTargets | shared/algorand_shared/to_compose_selection.py:623-659 | the k-th stale human pick is re-pinned to the k-th open day from today, or to the day after the window when it has no k-th |
| ReclaimPins.ClaimedDaysTold | shared/algorand_shared/to_compose_selection.py:626-628 | the days claimed at the start are those PENDING artifacts are pinned for |
| ReclaimPins.PinsRollForward | shared/algorand_shared/to_compose_selection.py:623-659 | while the window has a day for each, stale human picks get those days in their order, days without a row and without anyone's pin, end up PENDING and pinned to them, and no artifact that was PENDING changes |
| ReclaimLaws.PlatformPicksOutrank | shared/algorand_shared/to_compose_selection.py:661-684 | every reclaimed platform pick precedes everything that was PENDING, and boosts rise strictly in processing order |
| EditorialRuns.Execute | shared/algorand_shared/artifact_store.py:210-675 | after any run of inserts, priority updates, sweeps, verdicts, reverts, pins, venues, selects, resets and reclaims the pending index is exact |
| EditorialRuns.StepMoves | shared/algorand_shared/artifact_store.py:534-585 | the only status moves any operation makes |
| EditorialRuns.NoResurrection | shared/algorand_shared/to_compose_selection.py:366-379 | no run returns a COMPOSED or DISCARDED artifact to PENDING or SELECTED |
| EditorialRuns.NoAliasingEver | shared/algorand_shared/to_compose_selection.py:297-314 | from empty tables no artifact is ever named by two rows, so no finding has a current reference |
| EditorialRuns.NeverStrandedIff | shared/algorand_shared/to_compose_selection.py:218-236 | in a run from empty tables every SELECTED artifact always has a row if and only if each select runs on a day whose rows name no SELECTED pick |
| EditorialRuns.SelectedHasOneRow | shared/algorand_shared/to_compose_selection.py:281-314 | in such a run each SELECTED artifact has exactly one row |
| EditorialRuns.NothingStranded | shared/algorand_shared/to_compose_selection.py:619-686 | after a closing reclaim that row is for today or later, and a second reclaim finds nothing |
| EditorialRuns.HistoryRun | shared/algorand_shared/artifact_store.py:206-288 | over every run whose operations pass the service over, however selects, resets, reclaims and verdicts move other artifacts, its one pending artifact holds the accumulation of all its updates |
| EditorialRuns.SelectPassesOverIff | shared/algorand_shared/to_compose_selection.py:229-278 | a select passes a service over if and only if its lineup names no artifact of it |
| CrowdingRuns.OneAfterIff | shared/algorand_shared/artifact_store.py:166-171 | from one pending artifact per service, an operation keeps it so if and only if what it brings back to PENDING crowds nothing |
| CrowdingRuns.OnePerServiceRunIff | shared/algorand_shared/artifact_store.py:166-171 | the same all along a run |
| CrowdingRuns.ReclaimKeepsOnePinIff | shared/algorand_shared/to_compose_selection.py:619-686 | a reclaim keeps one pin per day if and only if no platform pick keeps a day that a pending artifact, a carried human pick or another platform pick has |
| CrowdingRuns.OnePinRunIff | shared/algorand_shared/artifact_store.py:612-616 | one pin per day holds all along a run if and only if nothing brought back shares its pinned day |
| RoomWitnesses.RevertCrowds | shared/algorand_shared/artifact_store.py:563-585 | insert, select, insert, revert: two pending artifacts of one service |
| RoomWitnesses.RevertSharesAPin | shared/algorand_shared/artifact_store.py:563-585 | a pinned pick, a new pin for its day and the pick's revert: two pins for one day |
| RoomWitnesses.MarkingPendingLosesTheIndex | shared/algorand_shared/artifact_store.py:532-541 | marking a picked artifact pending leaves the index without its row |
| RoomWitnesses.SelectTwiceStrands | shared/algorand_shared/to_compose_selection.py:218-236 | two selects on one day leave a SELECTED artifact without a row |
| RoomWitnesses.DryRunMisleads | shared/algorand_shared/to_compose_selection.py:661-684 | two equal stale platform picks: the dry report differs from the real one |
| RoomWitnesses.PlatformPinLost | shared/algorand_shared/to_compose_selection.py:626-684 | a platform pick pinned for today loses the pin to the human pick found after it |
| LineDiff.DiffLines | frontend/src/lib/diff.ts:11-46 | dropping the additions gives the old lines, dropping the removals the new ones; the kept lines are a longest common subsequence and no script has fewer edits; of the scripts with as few it is the first, equal lines ahead of removals ahead of additions, so a changed line shows its old text first |
| LineDiff.FillTable | frontend/src/lib/diff.ts:15-20 | every entry of the table is the length of a longest common subsequence of its two suffixes |
| LineDiff.OptimalScript | frontend/src/lib/diff.ts:22-45 | a script that keeps as many lines as the table says beats every other |
| LineDiff.WalkIsFirst | frontend/src/lib/diff.ts:22-45 | among all scripts with as few edits the walk takes the earlier turn wherever another differs from it |
| LineDiff.LinesRoundTrip | frontend/src/lib/diff.ts:49-51 | joining the lines gives back the text, and no line holds a line break |
| Slugs.PassesJoinTheWords | shared/algorand_shared/slugs.py:45-48 | the three substitutions and the strip amount to the maximal usable runs joined by single dashes |
| Slugs.ApostrophesVanish | shared/algorand_shared/slugs.py:42-44 | a straight or curly apostrophe anywhere in a title leaves no trace in its slug |
| Slugs.SlugNormalForm | shared/algorand_shared/slugs.py:31-62 | a slug is those words joined and clamped, in normal form, at most 70 characters, empty if and only if no usable character exists |
| Slugs.SlugIsIdempotent | shared/algorand_shared/slugs.py:31-62 | slugifying a slug, its folding included, changes nothing if the folding leaves slug characters and dashes alone |
| Slugs.ClampIsNormal | shared/algorand_shared/slugs.py:52-62 | clamping keeps a non-empty prefix in normal form |
| Slugs.ClampCutsAWordIff | shared/algorand_shared/slugs.py:52-62 | a word is cut in two if and only if the slug is too long and has no dash behind the middle of the cut |
| Slugs.LongWordIsCut | shared/algorand_shared/slugs.py:52-62 | a word of 71 letters loses its last one |
| Slugs.BaseTold | shared/algorand_shared/slugs.py:78 | the base is the title's slug, the fallback's if the title has no usable character, or a constant if neither has |
| Slugs.UniqueSlug | shared/algorand_shared/slugs.py:65-86 | the base if it is free, else the base with the smallest free number from 2 to 999, or a failure if and only if all 999 are taken |
| Slugs.ClaimFailureNeedsMany | shared/algorand_shared/slugs.py:79-86 | candidates are pairwise different, so a failure needs 999 slugs already given |
| ArticleTagIndex.NormalizeTags | shared/algorand_shared/article_tag_index.py:32-41 | the loop with its seen-set gives `NormalizedTags` |
| ArticleTagIndex.NormalizedTagsFacts | shared/algorand_shared/article_tag_index.py:32-41 | those are exactly the trimmed, lower-cased, non-blank tags, each once |
| ArticleTagIndex.NormalizedTagsGrow | shared/algorand_shared/article_tag_index.py:32-41 | their order is that of the first occurrences |
| Text.StripTold | shared/algorand_shared/article_tag_index.py:37 | stripping takes off all leading and trailing white space and nothing else |
| Text.CharsTold | shared/algorand_shared/article_tag_index.py:37 | capitals become small, every other character stays, and letters and digits are no white space |
| ArticleTagIndex.IndexTold | shared/algorand_shared/article_tag_index.py:57-103 | a row for each published article under each of its normalised tags, at its publication time and with its own columns, and no other row |
| ArticleTagIndex.SyncFollowsMove | shared/algorand_shared/article_tag_index.py:70-103 | dropping the old row's tags and adding the new row's is what the index of the moved table needs |
| ArticleTagIndex.SlugUpsertTold | shared/algorand_shared/article_tag_index.py:106-127 | the slug is set under every normalised tag and no other column changes; a row that was missing holds the slug alone |
| ArticleTransitions.ArticleStore.SyncTagIndex | shared/algorand_shared/article_tag_index.py:44-103 | the delete loop and the insert loop, each only for a published side |
| ArticleTransitions.ArticleStore.SetSlugInTagIndex | shared/algorand_shared/article_tag_index.py:106-127 | the slug is patched per tag, creating the row if it is missing; a blank slug does nothing |
| ArticleTransitions.ArticleStore.TransitionArticleStatus | shared/algorand_shared/article_transitions.py:48-108 | delete, carry over, stamp, override, insert and sync leave the tables as `Transitioned` says; False and no change without a row |
| ArticleTransitions.ArticleStore.EnsureArticleSlug | shared/algorand_shared/slugs.py:138-154 | no article, its own slug, or the first free one written onto its row |
| ArticleLaws.TransitionCarries | shared/algorand_shared/article_transitions.py:58-73 | one row changes key, overridden columns take what they are given and every other is carried, the status time is stamped if and only if the status changes, all other rows stay |
| ArticleLaws.MovesTold | shared/algorand_shared/article.py:131-174 | hold leaves the row on hold at its publication time, delete with the time given or now, publish, unless refused, published at the time given or now |
| ArticleLaws.SlugAgreesIff | shared/algorand_shared/article.py:176-197 | a slug claim keeps the tag index in agreement if and only if a slugless row finds every candidate taken, there is no row, or the object's tags fit the row |
| ArticleLaws.StepAgreesIff | shared/algorand_shared/article.py:153-197 | the same for every kind of step, with publish judged on the row it releases |
| ArticleLaws.RunAgreesIff | shared/algorand_shared/article_transitions.py:48-108 | the index agrees all along a run if and only if every publish and slug claim in it fits |
| PublishGuard.Article.ConflictingPublishedArticleId | shared/algorand_shared/article.py:111-129 | another published article stored under the trimmed, lower-cased service id, or None if there is none |
| PublishGuard.Article.Publish | shared/algorand_shared/article.py:131-160 | a conflict writes nothing and is reported; otherwise released and given a slug; exactly when each error is raised |
| PublishGuard.Article.EnsureSlug | shared/algorand_shared/article.py:176-197 | the claim, its copy in the index and the object's own slug |
| PublishGuard.Article.Hold | shared/algorand_shared/article.py:162-166 | the transition to on hold |
| PublishGuard.Article.Delete | shared/algorand_shared/article.py:168-174 | the transition to deleted with its time set |
| PublishLaws.RunSlugs | shared/algorand_shared/slugs.py:138-154 | over every run that overrides no slug, no two articles share a slug and one once given never changes |
| PublishLaws.PublishGuardsIff | shared/algorand_shared/article.py:111-160 | from no duplicates, a publish keeps it so if and only if it is refused, finds no row, or no other published article has the row's own normalised service |
| PublishLaws.OwnServiceGuardsIff | shared/algorand_shared/article.py:111-160 | from an object that names its row's service, if and only if the row is missing or every rival is stored under the normalised service id |
| PublishLaws.RunGuards | shared/algorand_shared/article.py:131-160 | when every move to published goes through publish, no normalised service ever has two published articles |
| PublishLaws.RefusedIffCovered | shared/algorand_shared/article_matching.py:19-37 | publishing an article that is not live is refused if and only if its service is named and already has a published article |
| PublishLaws.PublishSlugsIff | shared/algorand_shared/article.py:153-160 | every published row keeps having a slug if and only if the publish is refused, finds no row, finds a slug there, or finds a free candidate |
| ArticleWitnesses.OutdatedTagsDisagree | shared/algorand_shared/article.py:190-195 | an object with an outdated tag puts a row of that tag into the index |
| ArticleWitnesses.UnnormalisedRivalIsMissed | shared/algorand_shared/article.py:113-119 | a published article stored under "S" is not found by "s" |
| ArticleWitnesses.WrongServiceIsMissed | shared/algorand_shared/article.py:113-119 | an object with another service id than its row's does not find the row's rival |
| ArticleWitnesses.SluglessIsReleased | shared/algorand_shared/article.py:153-160 | with all 999 candidates taken the row is published without a slug |
| ConduitExporter.CassandraExporter.RoundRequest | conduit/plugin/exporter/cassandra_exporter.go:69-91 | where to resume: the stored text parsed as a signed 64-bit number, 0 when missing or negative, an error when it does not parse |
| ConduitExporter.CassandraExporter.Init | conduit/plugin/exporter/cassandra_exporter.go:132-146 | the genesis and the cursor are stored, nothing else changes |
| ConduitExporter.CassandraExporter.Receive | conduit/plugin/exporter/cassandra_exporter.go:164-240 | accepted if and only if all four writes are and the block has its delta or is round 0; stopped after any write it leaves exactly the writes made so far; a refused block writes nothing |
| ConduitExporter.CassandraExporter.BuildBatch | conduit/plugin/exporter/cassandra_exporter.go:191-224 | the statements of every transaction that flattens, per enabled table |
| ConduitLaws.RedeliveryAdvances | conduit/plugin/exporter/cassandra_exporter.go:164-240 | delivering a partly written block again never loses ground and never changes a finished part |
| ConduitLaws.SoundRun | conduit/plugin/exporter/cassandra_exporter.go:164-240 | between any two events of any run the tables are those of an uninterrupted run up to the cursor, plus a part of the block at the cursor |
| ConduitLaws.CrashSafe | conduit/plugin/exporter/cassandra_exporter.go:58-92 | after any deliveries, stops and restarts the cursor reads back, every round below it is complete in every enabled table, nothing but rows of the chain up to it is stored, and the last ingested round is below it |
| ConduitLaws.SameAsUninterrupted | conduit/plugin/exporter/cassandra_exporter.go:164-240 | whenever a delivery completes, all tables equal those of the same rounds without any interruption |
| ConduitLaws.CleanRunAdvances | conduit/plugin/exporter/cassandra_exporter.go:164-240 | from the first start each complete delivery moves the cursor by one, up to the first block above round 0 without its delta and never past it |
| ConduitLaws.RequestTold | conduit/plugin/exporter/cassandra_exporter.go:69-91 | a restart resumes at the number stored under next_round, at 0 when there is none or it is negative, and fails when it is no number |
| ConduitLaws.InitTold | conduit/plugin/exporter/cassandra_exporter.go:132-146 | a start stores the cursor and the genesis it is given and no other meta row |
| ConduitLaws.CursorTold | conduit/plugin/exporter/cassandra_exporter.go:233-238 | a complete call stores the next round, its own round and no other meta row |
| Decimals.DecimalRoundTrip | conduit/plugin/exporter/cassandra_exporter.go:84-91 | a cursor printed in decimal reads back if and only if it fits in 64 signed bits |

## Left out

- Clocks: every `now` is a parameter, one per call even where the code reads the clock twice; creation times are never null; `ingested_at`, `updated_at` of `conduit_meta` and other columns only the clock fills are not modelled.
- ArtifactStore.Store.InsertArtifact: takes a fresh artifact id, where the code draws a random uuid; ids that do not parse as uuids are not modelled.
- InsertLaws.InsertConserves: assumes at most 2000 pending rows, because the code's scan reads no more; the methods themselves truncate as the code does. The same holds for the other lemmas with `WithinLimit` or `LimitLeft`.
- ReclaimPins.PinsRollForward: assumes an open day among the next 366 for each stale human pick, because the probe gives up after that; `ReclaimPins.PassTargets`, `PinningLaws.PendingPinKeptIff` and `PinningLaws.PlatformPinKeptIff` say what happens without.
- SelectionLaws.LineupContract: assumes a daily maximum of at least 1, which the configuration clamps it to (workers/app/core/config.py:99).
- PlatformRanking.RankingIsOptimal: is about shares in [0, 1], the range the floors are documented for; how many slots are filled is exact for any share (`PlatformRanking.PicksCount`).
- DryRunBoosts.DryRunIsExactIff: assumes that priorities are not negative, as sums of the score components are.
- CrowdingRuns.OnePinRunIff: assumes that scans read the whole pending partition and that each reclaim finds a day for every human pick.
- Scores: word count, timeliness and ecosystem components are one arbitrary function of the artifact and its content; they are floating point with keyword tables.
- Floating point: priorities, scores and shares are real numbers, so the epsilon in the floors is exact, the 0.3 in the cap is three tenths, and a score is rounded from its exact value.
- Text: lower-casing is over ASCII letters, and the compatibility folding of titles with its combining marks is an arbitrary function.
- Metadata: fields are strings and the trail is typed; JSON encoding and malformed JSON are not modelled. A caller's own `segments` key is overwritten, as in the code.
- Order of a full scan of `to_compose`: a parameter, since the store promises none.
- Order of rows found by service id or slug: any row may be returned; the model only uses whether one exists and which article it names.
- Store failures and the branches that carry on after them: operations succeed, except the exporter's writes.
- `RoundRequest` answering 0 when the configuration or the connection fails, and the schema migration in `Init`.
- ConduitLaws.CrashSafe: assumes unique transaction ids and rounds within 64 signed bits; `flattenSignedTxn` is an arbitrary deterministic function that may skip a transaction.
- ArticleLaws.RunAgreesIff: starts from tables with one row per article id and years that match; creating and rewriting articles belongs to the worker pipeline and is not part of this model.
- PublishLaws.RunGuards: assumes stored service ids that are normalised and objects that name their row's service, the two conditions `PublishLaws.PublishGuardsIff` shows to matter; two processes racing between the check and the write are not modelled.
- The exception raised on a conflict also logs; logging and cache invalidation are not modelled.
- `preview_to_compose_for_day`: the same ranking without the writes.
- The per-call cache of pool lookups: published services are fixed for the duration of a selection.
- The x402 client, the frontend beyond the diff, evaluation and deployment scripts, configuration parsing and the HTTP layer.

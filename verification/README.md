# Verified model of the BTQ document pipeline

BTQ keeps its operational records as JSON documents in CouchDB. Many programs change the same documents: the vault
store, the job queue and its listeners, the reviewers of job drafts and of action candidates. Nobody holds a lock.
Every change is a GET followed by a PUT that the server accepts only while the revision that was read is still the
current one; a refused PUT is HTTP 409. This project models that protocol and the other stateful parts of the pipeline
in Dafny and proves what they keep.

`dafny verify dfyconfig.toml` checks everything.

## How the model is built

**The shared database.** `Couch` is the server: a map from document id to a revision and a body, with revisions from
one counter, so none is used twice. `StoreOps`, `DraftOps` and `CandidateOps` are the local decisions between a GET and
its PUT. `World` runs any number of clients, one request at a time, in the order given by a schedule; a lemma over all
schedules is a lemma over all interleavings. `StoreClient`, `DraftClient` and `CandidateClient` are the programs
themselves, with their retry loops and field-by-field updates, on a `Database` object that other clients use between
any two requests. Their contracts say that each call takes its client through a run of `World` and ends in the outcome
it returns, so every lemma about runs holds of the calls.

**What each call does.** `Effects`, `DraftEffects` and `CandidateEffects` say field by field what every request makes of the document it read, and `Reasons`
when it ends without writing; both are stated in terms of the request and the document alone. `CandidatePatch` is the
same for the entries of a field patch. `Executions` carries them to calls and `CommitEffects` to the commits of every
run.

**What is proved of it.** `Refinement`: whatever the interleaving, the store equals the committed operations executed
one at a time in commit order. `Redirects`: the condition on `update_doc` transforms is exact. `Progress`: every 409 is
paid for by another client's commit. `DraftHistory` and `DraftRuns`: one decision per draft, the audit trail, one queue
mark. `CandidateRuns`: the two copies of a candidate's source agree, one review, one staging mark. `Queue` and
`QueueClient`: creation, claim and ownership of queue jobs.

**The rest.** `Gregorian`, `Clock`, `Hours`, `HoursTheorems`: facility opening hours and the cut-off of the search for
the next opening. `Intake`, `IntakeKeys`: when a re-delivered capture replaces the stored one, and exactly when the
delivery order does not matter. `Sorting`, `Dedupe`, `Preference`: the digest keeps one candidate per fact, the
preferred one. `Staffing`, `StaffingReport`: merging staffing-risk events by site. `Backfill`, `BackfillOutcomes`:
copying media into a store that may fail. `Repair`: submitting a shift report and repairing what the service dropped.
`Header`, `Export`: the header of exported documents. `Text`, `Words`, `IsoDate`, `Calendar`, `CalendarInput`:
normalizing operational calendars. `Json` holds documents and optional values.

A loop of the program is a method with a loop; the function its contract names is the specification, and the lemmas are
about that function.

## Where the code does not do what it seems to

The lemmas are named; where a condition decides, it is proved to be the exact one.

- A patch that sets `_rev` can overwrite another client's commit, although both calls report success
  (`UnfaithfulPatchLosesUpdate`). An update whose transform redirects the write to another document can leave a store
  that the commits, one at a time in their order, do not make (`RedirectIsNotSerial`); transforms that edit the document
  they are given cannot (`EditsAreFaithful`).
- Requests that meddle with `_rev` or redirect the write conflict with nobody else around
  (`RevTamperingConflictsAlone`, `MeddlingConflictsAlone`).
- An upsert of an existing draft drops history and queue mark, and re-opens a decided one exactly when it brings a
  pending draft (`UpsertReopensIff`). A decided draft is decided again exactly when the expected prior statuses are
  empty or name its status (`DecidesAgainIff`, `UnguardedDecidesTwice`). Likewise for action candidates
  (`BuildChangesDecisionIff`, `ReviewAcceptedIff`, `UnguardedReviewsTwice`).
- A queue mark with a blank time can be followed by another mark, and only such a mark (`MarkRepeatsIffBlank`).
- A field patch of an action candidate does not look at the review status: a decided candidate keeps its status, not its
  content (`PatchIgnoresDecision`).
- The search for the next opening stops after 371 days. There are openings beyond exactly when some weekday has hours
  for some occurrence in its month, or a date that far ahead has (`OpensBeyondExactly`); without date exceptions none of
  them is missed (`SearchIsComplete`), and a weekday with hours is missed only where date exceptions take over all its
  occurrences (`EmptySearchIsHidden`). The opening reported is the first one listed, which is the earliest one exactly
  under the condition in `ClosedUntilNextOpen`.
- Deliveries of one capture leave the same media in every order if and only if one snapshot includes all the others
  (`OrderFreeIffTop`).
- Negative open positions are not summed (`NegativeCountsAreNotSummed`, `CountIsSumExactly`).
- An exported value that ends with the closing marker leaks the rest of the header into the body (`HeaderRoundTrip`). A
  document whose commit or path the header cannot return is written again by every export, and no other one
  (`RewrittenIff`).
- An expected report item without a response object is never repaired (`RepairSucceeds`).

One more deviation is outside the model. The docstring of `listen` in project/event_pipeline/couchdb_listener.py:66-78
says that no changes are missed. The code moves the sequence number before it tries the claim (lines 91-96), so an error
in the claim skips that change. The model follows the code and claims nothing about delivery.

## Model

| member | source | states |
|---|---|---|
| Refinement.NoLostUpdate | project/btq_vault/couch_store.py:405-544 | over every schedule of any number of clients, the store is the replay of the committed operations one at a time, each on its immediate predecessor; an operation reports success exactly when it committed once, and one that stopped decided on a state the store really had; updates may use any transform that does not redirect a document read under their id, or the seed, to another document |
| Refinement.EditsAreFaithful | project/btq_vault/couch_store.py:436-476 | every update that edits the document it is given without touching its `_id`, or creates one under the id it was asked for, is covered by these results |
| Refinement.AcceptedIsAtomic | project/btq_vault/couch_store.py:405-434 | an accepted PUT has the effect of reading, deciding and writing at that moment |
| CommitEffects.EveryCommitHasItsEffect | project/btq_vault/couch_store.py:405-544 | in every run each commit stores, under a new revision, what its request says of the document as the commit before it left it, field by field, and touches no other document |
| CommitEffects.EditsAreStored | project/event_pipeline/couchdb_job_draft_writer.py:241-293 | in every run a committed payload edit leaves the given payload, validation error, editor and time in the draft and every other field but the history as before |
| Effects.UpdateCarries | project/btq_vault/couch_store.py:461-469 | `update_doc` stores what the transform returned for the document it read, or for the seed, under the id of that result |
| Effects.PatchCarries | project/btq_vault/couch_store.py:496-517 | `patch_fields` stores the given fields as given and all others as read |
| Effects.DeleteCarries | project/btq_vault/couch_store.py:519-544 | `delete_fields` stores the document without the named fields and with all others as read |
| DraftEffects.ReviewChanges | project/event_pipeline/couchdb_job_draft_writer.py:122-152 | a review sets status, reviewer, time, rationale and prior status, adds one history entry that says the same, and leaves every other field |
| DraftEffects.RouteChanges | project/event_pipeline/couchdb_job_draft_writer.py:182-232 | a routed approval stores the route, its job type and payload, what they replace and the decision, and leaves every other field |
| DraftEffects.EditChanges | project/event_pipeline/couchdb_job_draft_writer.py:262-287 | a payload edit stores the given payload and validation error, editor and time, adds one history entry, and leaves every other field |
| DraftEffects.MarkChanges | project/event_pipeline/couchdb_job_draft_writer.py:303-351 | both queue marks set the time; a no-action mark also says so, a materialized one changes nothing else |
| DraftEffects.BuiltDraftIs | project/event_pipeline/couchdb_job_draft_writer.py:391-428 | a built draft has the id, job type, payload, status, group and source of the request, with the defaults of the source |
| CandidateEffects.StatusChanges | project/event_pipeline/couchdb_candidate_writer.py:111-163 | a candidate review sets status, reviewer, time, rationale and prior status, adds one history entry, and leaves every other field |
| CandidateEffects.PatchChanges | project/event_pipeline/couchdb_candidate_writer.py:184-209 | a field patch sets exactly the named fields in the source holders, the evidence, the site and the summary, and leaves every other field |
| CandidateEffects.ArchiveChanges | project/event_pipeline/couchdb_candidate_writer.py:212-241 | archiving sets flag, time and person; its reversal clears them |
| CandidateEffects.BuiltCandidateIs | project/event_pipeline/couchdb_candidate_writer.py:318-386 | a built candidate has the id and status of the request and holds its source fields in both copies |
| Reasons.WritesUnlessDeclined | project/btq_vault/couch_store.py:405-544 | each of the eight requests ends without writing exactly when one of its reasons holds of the document it read, and with the outcome that names the reason |
| Executions.FinishedAccounts | project/btq_vault/couch_store.py:80-103 | a client that has finished either stored what its request says of a document it had read, or had a reason given such a document, or was refused on every attempt |
| Refinement.UnfaithfulPatchLosesUpdate | project/btq_vault/couch_store.py:496-517 | the exact condition on patches: any patch that sets `_rev` to a revision the server may give wipes another client's committed field in some run in which both report success |
| Redirects.RedirectIsNotSerial | project/btq_vault/couch_store.py:436-476 | the exact condition on updates: any update whose transform redirects the write has a run in which it and another client report success and the store is not that of the two in commit order |
| Couch.StoreKeepsValid | project/btq_vault/couch_store.py:405-434 | an accepted PUT leaves every stored revision below the next one, so none is reused |
| Progress.ConflictsArePaidFor | project/btq_vault/couch_store.py:91-103 | each refused PUT of a request that leaves `_rev` and the target alone has a foreign commit to that document of its own, between its GET and its PUT; a conflict is reported only after a whole budget of them |
| Progress.FreshWriteIsAccepted | project/btq_vault/couch_store.py:452-476 | a write of the document that is still current is not refused |
| Progress.RefusedAlone | project/btq_vault/couch_store.py:91-103 | a request whose first PUT is refused without any other client is refused on every attempt and changes nothing |
| Progress.RevTamperingConflictsAlone | project/btq_vault/couch_store.py:452-544 | removing, supplying or replacing `_rev`, or redirecting the write, ends in a conflict although no other client exists |
| Progress.MeddlingConflictsAlone | project/btq_vault/couch_store.py:452-544 | every other request that reaches a PUT conflicts alone on some server, so the condition is exact |
| StoreClient.Database.GetDoc | project/btq_vault/couch_store.py:394-396 | the GET of an attempt is one step of its client after any steps of the others |
| StoreClient.Database.PutDoc | project/btq_vault/couch_store.py:405-434 | the PUT is one step: accepted, with the stored body, or refused, with the next attempt or the final conflict |
| StoreClient.UpsertDoc | project/btq_vault/couch_store.py:80-103 | the retry loop takes its client through a run of the machine to the outcome it returns; on success the caller's document was stored, otherwise it had no id or was refused twice |
| StoreClient.UpdateDoc | project/btq_vault/couch_store.py:436-476 | for any transform, seed and number of retries: on success a step of the call stored exactly what the transform returned for a document read in the call, or for the seed, and touched no other document; otherwise there was a reason, or every attempt was refused |
| StoreClient.PatchFields | project/btq_vault/couch_store.py:496-517 | on success a step of the call stored a document read in the call with the given fields replaced; otherwise the document was absent or the call was refused twice |
| StoreClient.DeleteDocFields | project/btq_vault/couch_store.py:519-544 | on success a step of the call stored a document read in the call without the named fields; otherwise nothing was named, the document was absent, or the call was refused twice |
| DraftRuns.SingleDecision | project/event_pipeline/couchdb_job_draft_writer.py:100-351 | over every interleaving in which no decision passes the status check on a decided draft and no upsert commits on one, at most one decision commits to a draft; it found the draft undecided, in a status it allows; afterwards status, job type, payload and history never change, and a routed approval has kept what it replaced |
| DraftRuns.AuditTrail | project/event_pipeline/couchdb_job_draft_writer.py:122-152 | whatever prior statuses are allowed, as long as no upsert builds the draft anew, the history is the committed decisions and payload edits in commit order, each entry continuing the status of the one before, the last one ending at the document's status, and it only grows |
| DraftHistory.HistoryIsTheRun | project/event_pipeline/couchdb_job_draft_writer.py:265-287 | one history entry per committed decision or edit, with its author, time and status |
| DraftHistory.HistoryIsAppendOnly | project/event_pipeline/couchdb_job_draft_writer.py:131-141 | an earlier history is a prefix of every later one |
| DraftHistory.RouteKeepsOriginal | project/event_pipeline/couchdb_job_draft_writer.py:190-232 | a routed approval saves the payload and job type it replaces |
| DraftHistory.DecisionStands | project/event_pipeline/couchdb_job_draft_writer.py:122-125 | on a decided draft only queue marks still commit, and they leave the decision alone |
| DraftRuns.MaterializedOnce | project/event_pipeline/couchdb_job_draft_writer.py:296-351 | over every interleaving in which no upsert replaces a marked draft, a queue mark with a non-blank time is the last one, and that time stays |
| DraftHistory.MarkRepeatsIffBlank | project/event_pipeline/couchdb_job_draft_writer.py:303-312 | right after a mark another mark is accepted if and only if the first had a blank time |
| DraftRuns.UpsertReopensIff | project/event_pipeline/couchdb_job_draft_writer.py:354-388 | an upsert of an existing draft is accepted exactly when it can be built and expects no other revision; history and queue mark are gone, and a decided draft is open again exactly when the built one is pending |
| DraftRuns.UpsertBreaksDecision | project/event_pipeline/couchdb_job_draft_writer.py:354-388 | an upsert that commits on a draft with a history changes what a decision has frozen |
| DraftRuns.DecidesAgainIff | project/event_pipeline/couchdb_job_draft_writer.py:122-125 | a decided draft is decided again exactly when the prior statuses are empty or name its status |
| DraftRuns.UnguardedDecidesTwice | project/event_pipeline/couchdb_job_draft_writer.py:100-238 | the condition of the single decision is exact: every decision without the check, or with a decided status among the allowed ones, is the second decision of some run |
| DraftRuns.FreshDraftHasNoHistory | project/event_pipeline/couchdb_job_draft_writer.py:391-428 | a built draft has a status and no history |
| DraftClient.SetReviewStatus | project/event_pipeline/couchdb_job_draft_writer.py:100-158 | on success a step of the call stored the review of the draft it read, field by field; otherwise a reason held of that draft, or the one PUT was refused |
| DraftClient.SetApprovalRoute | project/event_pipeline/couchdb_job_draft_writer.py:161-238 | on success a step of the call stored the routed approval of the draft it read, field by field; otherwise a reason held of that draft, or the one PUT was refused |
| DraftClient.SetPayload | project/event_pipeline/couchdb_job_draft_writer.py:241-293 | on success a step of the call stored the payload edit of the draft it read, field by field; otherwise a reason held of that draft, or the one PUT was refused |
| DraftClient.SetQueueMark | project/event_pipeline/couchdb_job_draft_writer.py:296-351 | on success a step of the call stored the queue mark of the draft it read, field by field; otherwise a reason held of that draft, or the one PUT was refused |
| DraftClient.UpsertJobDraft | project/event_pipeline/couchdb_job_draft_writer.py:354-388 | on success a step of the call stored the built draft; otherwise it cannot be built, the expected revision is not the one read, or every attempt was refused: one when a revision is expected, two otherwise |
| CandidateRuns.CopiesAgreeInEveryRun | project/event_pipeline/couchdb_candidate_writer.py:111-386 | over every interleaving of builds, patches, reviews, archiving and staging, `evidence` and `source_detail` hold the same rationale, source text and confidence in every version |
| CandidateRuns.PatchSetsBothCopies | project/event_pipeline/couchdb_candidate_writer.py:198-208 | a patch sets a source field in both copies to the same value and no other field of either |
| CandidateRuns.PatchChangesOnlyTargets | project/event_pipeline/couchdb_candidate_writer.py:184-209 | outside the two copies and the source, a patch changes the site and the summary it names and nothing else |
| CandidateRuns.PatchChangesOnlyChannelFields | project/event_pipeline/couchdb_candidate_writer.py:186-193 | inside the channel metadata a patch sets the channel fields it names and nothing else |
| CandidateRuns.OneReviewPerCandidate | project/event_pipeline/couchdb_candidate_writer.py:111-163 | over every interleaving in which no review passes the status check on a decided candidate and no build brings one another status, at most one review commits, it found the candidate undecided, and its status stays |
| CandidateRuns.UnguardedReviewsTwice | project/event_pipeline/couchdb_candidate_writer.py:111-163 | that condition is exact: every review without the check, or with a decided status among the allowed ones, is the second review of some run |
| CandidateRuns.BuildChangesDecisionIff | project/event_pipeline/couchdb_candidate_writer.py:265-315 | a build of a decided candidate changes the decision exactly when it brings another status, and removes a staging time in any case |
| CandidateRuns.PatchIgnoresDecision | project/event_pipeline/couchdb_candidate_writer.py:166-209 | a field patch of a candidate in any status is accepted exactly when it expects no other revision, writes the patched document and keeps the status |
| CandidateRuns.StagedOnce | project/event_pipeline/couchdb_candidate_writer.py:244-262 | over every interleaving in which no build replaces a staged candidate, a staging mark with a non-blank time is the last one, and its time stays |
| CandidateRuns.BuiltMirrors | project/event_pipeline/couchdb_candidate_writer.py:318-386 | a built candidate holds the source fields twice, alike |
| CandidateClient.NormalizedPatch | project/event_pipeline/couchdb_candidate_writer.py:420-438 | the loop collects the allowed fields, later ones overriding earlier ones, or refuses the patch |
| CandidatePatch.PatchIsAllowed | project/event_pipeline/couchdb_candidate_writer.py:420-438 | a patch is refused exactly when one of its entries names a field that is not allowed, or the channel metadata are no object or name one |
| CandidatePatch.LastEntryDecides | project/event_pipeline/couchdb_candidate_writer.py:420-438 | a normalized patch holds exactly the fields that some entry gives, each with the value of the last such entry |
| CandidatePatch.CoercedIs | project/event_pipeline/couchdb_candidate_writer.py:460-470 | a proposed visit is stored as yes exactly for true, a nonzero number and the four words in any case; the confidence as given; everything else as text; storing a stored value again changes nothing |
| CandidateClient.ApplyPatch | project/event_pipeline/couchdb_candidate_writer.py:184-209 | the updates in place, target by target and field by field, give the patched document of the lemmas |
| CandidateClient.SetActionCandidateStatus | project/event_pipeline/couchdb_candidate_writer.py:111-163 | on success a step of the call stored the review of the candidate it read, field by field; otherwise a reason held of that candidate, or the one PUT was refused |
| CandidateClient.PatchActionCandidateFields | project/event_pipeline/couchdb_candidate_writer.py:166-209 | on success a step of the call stored the field patch of the candidate it read, field by field; otherwise a reason held of that candidate, or the one PUT was refused |
| CandidateClient.SetActionCandidateArchived | project/event_pipeline/couchdb_candidate_writer.py:212-241 | on success a step of the call stored the archiving or its reversal of the candidate it read, field by field; otherwise a reason held of that candidate, or the one PUT was refused |
| CandidateClient.SetActionCandidateStagedAt | project/event_pipeline/couchdb_candidate_writer.py:244-262 | on success a step of the call stored the staging mark of the candidate it read, field by field; otherwise a reason held of that candidate, or the one PUT was refused |
| CandidateClient.UpsertActionCandidate | project/event_pipeline/couchdb_candidate_writer.py:265-315 | on success a step of the call stored the built candidate; otherwise it cannot be built, or both attempts were refused |
| Queue.QueueOwnership | project/event_pipeline/couchdb_listener.py:109-178 | over every order of any number of producers and listeners, whose holders may edit their copies, a job id is created once, claimed at most once, written afterwards only by the claimer, and at most one copy in anybody's hands is current; it is the stored document and its holder is the claimer |
| Queue.TerminalIsAbsorbing | project/event_pipeline/couchdb_listener.py:117-126 | a complete or failed job never changes again |
| Queue.PendingJobIsClaimed | project/event_pipeline/couchdb_listener.py:145-160 | in any reachable state, a pending job that a listener looks at is claimed in the end, whatever the others do in between: by that listener if the job has not changed when it tries, otherwise by one that was faster |
| Queue.BuildQueueDoc | project/event_pipeline/btq_client.py:148-168 | a built job is pending, carries no revision, and its document id is its job id; it is refused exactly when job type or payload is missing |
| Queue.QueueDocIs | project/event_pipeline/btq_client.py:148-168 | a built job has the job id of the request or else the derived one, its job type, payload and extras, the creation time of the request or else the clock, and no other field |
| Queue.ClaimIsStored | project/event_pipeline/couchdb_listener.py:145-160 | a claim that is won finds the job pending and stores it claimed, with every other field as it was, and changes no other job |
| Queue.ReportIsStored | project/event_pipeline/couchdb_listener.py:117-178 | an accepted report stores processing, complete or failed as it says, the reason of a failure, and otherwise the copy with the edits of its holder; no other job changes |
| QueueClient.EnqueueJob | project/event_pipeline/btq_client.py:171-226 | the call sends exactly the built job; it reports a duplicate when that very request was refused, and otherwise that request has created the job and left it pending |
| QueueClient.ChangesListener.ClaimIfPending | project/event_pipeline/couchdb_listener.py:145-160 | a won claim hands out what is stored now: a pending job of this run with its state changed to claimed and nothing else; otherwise the listener holds no new copy |
| QueueClient.ChangesListener.UpdateState | project/event_pipeline/couchdb_listener.py:162-178 | an accepted report has stored the job in the state that the report names, with the reason of a failure and otherwise the handed-in copy and its holder's edits; after `mark_processing` the returned copy is current; a conflict changes nothing for the listener |
| QueueClient.ChangesListener.NextClaimed | project/event_pipeline/couchdb_listener.py:66-107 | the loop over a feed: the sequence number is that of the last change read, claimed or not |
| QueueClient.LastSeqIs | project/event_pipeline/couchdb_listener.py:91-96 | the sequence number is that of the last change that carries one |
| Gregorian.ClassRecurs | project/btq_vault/facility_hours.py:212-238 | every weekday occurs as the first, second, up to fifth of its month within 155 days of any date |
| Gregorian.FirstDay | project/btq_vault/facility_hours.py:217-218 | January 1 of year 1 is day number 1 and a Monday |
| Gregorian.Epoch | project/btq_vault/facility_hours.py:217-218 | January 1, 1970 is day number 719163 and a Thursday |
| Gregorian.MonthTable | project/btq_vault/facility_hours.py:229-238 | month lengths are those of the table of section 5.7 of RFC 3339 |
| Gregorian.NextDayOrdinal | project/btq_vault/facility_hours.py:229-238 | the next day has the next day number, over month ends, leap days and year ends |
| Gregorian.FieldOrderIsDayOrder | project/btq_vault/facility_hours.py:229-238 | the order of dates by year, month and day is the order of their day numbers |
| HoursTheorems.DateRuleDecides | project/btq_vault/facility_hours.py:212-216 | the first exception for a date decides its hours, whatever else applies |
| HoursTheorems.NthRuleDecides | project/btq_vault/facility_hours.py:217-225 | without one, the first nth-weekday exception that applies decides |
| HoursTheorems.WeeklyRuleDecides | project/btq_vault/facility_hours.py:226-226 | without either, the weekly rule decides |
| HoursTheorems.SearchIsComplete | project/btq_vault/facility_hours.py:229-238 | without date exceptions, the bounded search finds nothing if and only if no date whatsoever has an opening |
| HoursTheorems.OpensBeyondExactly | project/btq_vault/facility_hours.py:212-238 | on any schedule there are openings beyond the days searched exactly when some weekday has hours for some occurrence in its month, or the first exception for a date 371 days or more ahead has hours; an empty search is wrong exactly then |
| HoursTheorems.EmptySearchIsHidden | project/btq_vault/facility_hours.py:212-238 | an empty search misses a weekday and occurrence with hours only where date exceptions take over every one of its dates inside the horizon, and these are at least two |
| HoursTheorems.OnlyFarDateExceptionsAreMissed | project/btq_vault/facility_hours.py:229-238 | when no date exception lies one to 370 days ahead, an empty search misses nothing but openings by date exceptions |
| HoursTheorems.FarDateExceptionIsMissed | project/btq_vault/facility_hours.py:229-238 | a facility whose only opening is one date 371 days or more ahead has no next opening |
| HoursTheorems.OpenUntilNextClose | project/btq_vault/facility_hours.py:94-101 | while open, every instant up to the reported closing time is open |
| HoursTheorems.NextOpenIsOpening | project/btq_vault/facility_hours.py:102-109 | while closed, the reported opening is strictly later and is open |
| HoursTheorems.ClosedUntilNextOpen | project/btq_vault/facility_hours.py:229-238 | the facility stays closed until the reported opening if and only if no interval listed later that day opens earlier, in particular when the day lists its intervals in order |
| HoursTheorems.ReportOpenState | project/btq_vault/facility_hours.py:86-109 | the whole answer: open exactly when an interval covers the instant, and the guarantees above for each reported state |
| Hours.NextOpenAfter | project/btq_vault/facility_hours.py:229-238 | the search returns the first qualifying interval of the first day that has one, or none within 371 days |
| Hours.FacilityOpenState | project/btq_vault/facility_hours.py:86-109 | unknown hours, open with the closing time of a covering interval, or closed with the result of the search |
| Hours.NormalizeIntervals | project/btq_vault/facility_hours.py:184-200 | the intervals are read one by one, with opening before closing, or the input is refused, exactly when one of them cannot be read |
| Clock.ReadExactly | project/btq_vault/facility_hours.py:203-209 | a text is read as a minute of the day exactly when, without outer blanks, it is that minute written as HH:MM, so writing and reading gives the minute back |
| Clock.IntervalIsRead | project/btq_vault/facility_hours.py:184-200 | an interval is read exactly when both its ends are such texts and it opens before it closes |
| Hours.NormalizeExceptions | project/btq_vault/facility_hours.py:131-181 | the input is refused exactly when some exception is not acceptable; otherwise every exception is kept in its place with its date, or its weekday and the first occurrences of its ordinals, and its intervals |
| Hours.SameClassSameHours | project/btq_vault/facility_hours.py:212-226 | two dates with the same weekday and ordinal and no date exception have the same hours |
| Intake.IsSafeExpansion | project/event_pipeline/couchdb_capture_adapter.py:187-231 | the loops decide the safe-expansion predicate |
| Intake.SafeMeansProperInclusion | project/event_pipeline/couchdb_capture_adapter.py:187-231 | for clean snapshots, safe is exactly a proper inclusion of media with nothing else changed |
| IntakeKeys.UploadIdDecides | project/event_pipeline/couchdb_capture_adapter.py:176-184 | two records with upload ids are one exactly when these are equal, whatever their file names |
| IntakeKeys.FileDecides | project/event_pipeline/couchdb_capture_adapter.py:176-184 | without upload ids two records are one exactly when file name and type are equal |
| IntakeKeys.UploadIsNoFile | project/event_pipeline/couchdb_capture_adapter.py:176-184 | a record with an upload id and one without are never one, unless the id holds a NUL |
| IntakeKeys.NoKey | project/event_pipeline/couchdb_capture_adapter.py:176-184 | a record has no key exactly when it has neither upload id nor file name, whatever its type |
| IntakeKeys.LastRecordWins | project/event_pipeline/couchdb_capture_adapter.py:218-219 | the dictionary of a media field holds the last record of every key that occurs, and nothing else |
| IntakeKeys.CleanMeans | project/event_pipeline/couchdb_capture_adapter.py:218-226 | a media field is clean exactly when every record has a key and no two share one |
| IntakeKeys.DeliveryIsStored | project/event_pipeline/couchdb_capture_adapter.py:263-330 | an import keeps the stored job or stores content and media of the delivery, with the export time that is already stored, if there is one |
| Intake.NothingIsLost | project/event_pipeline/couchdb_capture_adapter.py:263-330 | whatever is delivered in whatever order, no stored record is lost or changed, everything outside the media stays, and rewrites are bounded by the media count |
| Intake.LargestIsKept | project/event_pipeline/couchdb_capture_adapter.py:263-330 | when one delivered snapshot includes all the others, the intake ends with its media, whatever the order and the repeats |
| Intake.OrderFreeIffTop | project/event_pipeline/couchdb_capture_adapter.py:263-330 | all orders of the deliveries of one capture leave the same intake, but for its export time, if and only if one snapshot includes all the others |
| Intake.OrderDoesNotMatter | project/event_pipeline/couchdb_capture_adapter.py:263-330 | two sequences of the same snapshots, one of which includes all the others, leave the same intake but for its export time, whatever the order and the repeats |
| Intake.ChainHasTop | project/event_pipeline/couchdb_capture_adapter.py:187-231 | among snapshots that are pairwise comparable one includes all the others |
| Intake.TwoOrdersAgreeIffComparable | project/event_pipeline/couchdb_capture_adapter.py:187-231 | two snapshots leave the same media in both orders if and only if one includes the other |
| Intake.IntakeFile.Import | project/event_pipeline/couchdb_capture_adapter.py:263-330 | one import stores the decision of the model and reports whether it wrote; a dry run writes nothing |
| Dedupe.OnePerFact | project/nightly_digest_builder.py:594-622 | every identity key with a non-empty text keeps exactly one candidate, no key standing at two places of the output: in sort order, the first of those of maximal precision |
| Preference.IncludedAreChosen | project/nightly_digest_builder.py:576-622 | for every key with a fact the digest includes one candidate: of greatest length, among those of the source that comes first of system, report, journal and any other, among those the first by group, value, sequence and text; the output is in that order |
| Preference.PreciserMeans | project/nightly_digest_builder.py:576-578 | of two candidates the longer one is more precise, and with equal lengths the one whose source comes first |
| Dedupe.NothingIsDropped | project/nightly_digest_builder.py:594-622 | included and excluded candidates together are the input as a multiset |
| Dedupe.ExclusionsAreJustified | project/nightly_digest_builder.py:603-620 | every exclusion carries the right reason: an empty text, the same fact seen before at least as precisely, or a rival that is preferred |
| Dedupe.DedupeIsIdempotent | project/nightly_digest_builder.py:594-622 | deduplicating the output excludes nothing and returns it unchanged |
| Dedupe.DedupeCandidates | project/nightly_digest_builder.py:594-622 | the dictionary loop computes the included and excluded candidates of the lemmas, and the counts are those of the sources |
| Sorting.SortKeeps | project/nightly_digest_builder.py:598-621 | sorting permutes and orders |
| Sorting.SortIsStable | project/nightly_digest_builder.py:598-621 | elements that the order does not tell apart keep their order |
| Staffing.OneEventPerSite | project/event_pipeline/enricher.py:45-76 | the output has exactly one staffing event for each site of the input, the merge of its events, and none for any other |
| Staffing.MergedCountAndSeverity | project/event_pipeline/enricher.py:60-71 | with non-negative counts, a site with several events gets the sum of its counts, severity critical when the sum is at least two, and the maximum otherwise |
| Staffing.CountIsSumExactly | project/event_pipeline/enricher.py:60-63 | with counts of any sign, the merged count is the sum at every moment exactly when no step adds two nonzero numbers to something not positive |
| Staffing.NegativeCountsAreNotSummed | project/event_pipeline/enricher.py:60-63 | counts -1 and 1 are merged to -1 |
| Staffing.MergedDetails | project/event_pipeline/enricher.py:73-73 | the merged event tells all the details in the order of the events |
| StaffingReport.MergedSeverity | project/event_pipeline/enricher.py:65-68 | with fewer than two open positions the merged event carries the highest severity of the group in the order low, medium, high, critical, any other word below them |
| StaffingReport.MergedExcerpt | project/event_pipeline/enricher.py:74-74 | the merged excerpt has the words of all excerpts in the order of the events |
| StaffingReport.MergedRest | project/event_pipeline/enricher.py:56-58 | everything else is taken from the first event of the group |
| StaffingReport.AggregatedInOrder | project/event_pipeline/enricher.py:45-76 | the output lists all other events in their order and behind them the merged ones ordered by site |
| Staffing.TotalIsConserved | project/event_pipeline/enricher.py:45-76 | with non-negative counts, aggregation keeps the total of the open positions |
| Staffing.AggregationIsIdempotent | project/event_pipeline/enricher.py:45-76 | aggregating again changes nothing, whatever the counts |
| Staffing.AggregateStaffingRiskEvents | project/event_pipeline/enricher.py:45-76 | the dictionary loop with its in-place updates computes the grouping of the lemmas |
| Backfill.BackfillReport.HandleFiles | project/btq_cli/media_backfill_to_r2.py:76-119 | after every file the scanned total equals copied, skipped, would-copy and failed together, with one error entry per failure |
| Backfill.EveryKeyHoldsOrIsReported | project/btq_cli/media_backfill_to_r2.py:76-119 | after a write run on a store that may fail in any way, every scanned key holds its local bytes or has an error entry |
| Backfill.OthersUntouched | project/btq_cli/media_backfill_to_r2.py:76-119 | a key that is not scanned keeps its content |
| Backfill.DryRunWritesNothing | project/btq_cli/media_backfill_to_r2.py:101-105 | a dry run changes nothing, whatever fails |
| Backfill.DryRunPredicts | project/btq_cli/media_backfill_to_r2.py:76-119 | on a reliable store, would-copy of the dry run is copied of the write run, with the same files present and the same failures |
| Backfill.SecondRunCopiesNothing | project/btq_cli/media_backfill_to_r2.py:76-119 | on a reliable store a second run copies nothing and changes nothing |
| Backfill.BackfillMediaToStore | project/btq_cli/media_backfill_to_r2.py:61-119 | the command: a negative limit and a missing directory are refused, otherwise the run over the files up to the limit |
| Backfill.IterUploadFiles | project/btq_cli/media_backfill_to_r2.py:152-162 | the regular files in order, up to the limit, none for limit zero |
| BackfillOutcomes.ScannedAreFirst | project/btq_cli/media_backfill_to_r2.py:152-162 | the scanned files are exactly the first regular entries in order, all of them below the limit and as many as the limit otherwise |
| BackfillOutcomes.ReasonsAreTold | project/btq_cli/media_backfill_to_r2.py:76-119 | every error entry names a scanned file and the reason why that file failed |
| Repair.SubmittedMeansShown | project/btq_cli/shift_report_to_sc.py:201-252 | an id comes back exactly when every request succeeded and the last body the service reported shows every expected item |
| Repair.SubmittedIsShown | project/btq_cli/shift_report_to_sc.py:201-252 | when a report is submitted, the last item reported under the id of each expected item shows the same text, else the same time up to zero milliseconds, else the same selected ids, else equal responses |
| Repair.FailureIsExplained | project/btq_cli/shift_report_to_sc.py:201-252 | each failure names what was wrong with the replies |
| Repair.RepairSendsWhatIsMissing | project/btq_cli/shift_report_to_sc.py:221-252 | the repair sends under the given id exactly the items that the reply to the POST does not show |
| Repair.RepairSucceeds | project/btq_cli/shift_report_to_sc.py:201-272 | with distinct item ids, whatever the service kept on creation, if it merges the repair by id the report is submitted exactly when every expected item has a response object |
| Repair.MissingMeansUnmatched | project/btq_cli/shift_report_to_sc.py:255-272 | nothing is missing exactly when the last reported item of each expected id matches it |
| Repair.MatchMeansSame | project/btq_cli/shift_report_to_sc.py:275-296 | the comparison holds if and only if the item shows what was expected, decided by text, time, selection or the whole |
| Repair.DroppedOrAlteredIsMissing | project/btq_cli/shift_report_to_sc.py:255-296 | an item that is not reported, has no response object, or shows another text, time or selection is missing |
| Repair.SentMatchesItself | project/btq_cli/shift_report_to_sc.py:275-296 | responses match themselves exactly when they are an object |
| Repair.MillisecondsDoNotMatter | project/btq_cli/shift_report_to_sc.py:280-283 | a time with and without zero milliseconds match, in both directions |
| Repair.SelectionIsASet | project/btq_cli/shift_report_to_sc.py:284-295 | the order and repetition of selected ids do not matter |
| Repair.MissingGroup | project/btq_cli/shift_report_to_sc.py:255-272 | the two loops collect the unmatched items in order |
| Repair.Client.SubmitPrefill | project/btq_cli/shift_report_to_sc.py:201-252 | the call exchanges exactly the requests of the lemmas; an id comes back only when the last reported body shows every expected item, and a failure tells what was wrong with the replies |
| Header.HeaderRoundTrip | project/docs_export.py:107-135 | for any body, metadata and body come back exactly when every value is one line without outer blanks that does not end with the closing marker |
| Header.NoHeaderNoMetadata | project/docs_export.py:119-124 | a text that does not start with a header comes back whole, without metadata |
| Header.HeaderNeedsColons | project/docs_export.py:125-135 | a header with a line that has no colon is no header; otherwise the body is the rest without one leading line feed |
| Header.ParsedIsPlain | project/docs_export.py:119-135 | no text whatever makes the parser return a value with a line break or an outer blank |
| Header.ParseMetadataHeader | project/docs_export.py:119-135 | the loop over the header lines computes the parse of the lemmas, the three failure returns included |
| Export.EveryTargetIsCurrent | project/docs_export.py:201-224 | after an export every target is a current copy of its source, whatever was there before, and sources are untouched |
| Export.SecondExportWritesNothing | project/docs_export.py:201-224 | a second export at the same commit, at any time, writes no document |
| Export.RenderedIsCurrent | project/docs_export.py:138-152 | a rendered document counts as current for its own commit |
| Export.HeaderSays | project/docs_export.py:107-117 | the header of an exported document says version, time, commit, path and exporter under their keys |
| Export.UnprintableIsNeverCurrent | project/docs_export.py:142-152 | no document whatsoever counts as current for a commit or path with a line break or outer blanks |
| Export.RenderedIsCurrentIff | project/docs_export.py:138-152 | a rendered document counts as current exactly when the header can return its commit and path |
| Export.RewrittenIff | project/docs_export.py:142-224 | an item that was not current is written again by a repeated export at the same commit exactly when its commit or path is one that the header cannot return, a value ending with the closing marker included |
| Export.SecondExportIsSilentIff | project/docs_export.py:201-224 | when nothing was current before, the second export writes nothing exactly when the header can return the commit and every path |
| Export.OnlyTargetsChange | project/docs_export.py:201-224 | an export changes no file that is not a target |
| Export.ExportDocs | project/docs_export.py:201-227 | the loop leaves the files and statuses of the lemmas, and the two counts add up to the items |
| IsoDate.TextOrderIsDayOrder | project/btq_vault/operational_calendar.py:270-278 | on accepted date texts the order of strings is the order in time |
| IsoDate.DateTextIsRead | project/btq_vault/operational_calendar.py:270-278 | every date up to the year 9999 is read back from its text |
| IsoDate.DateIsWritten | project/btq_vault/operational_calendar.py:270-278 | a date text is the text of its date and of no other |
| Words.CollapseIsIdempotent | project/btq_vault/operational_calendar.py:327-330 | collapsing a collapsed text changes nothing |
| Words.SplitMeansLaid | project/btq_vault/operational_calendar.py:327-330 | the words of a text are exactly those that blanks separate in it, in their order |
| Words.CollapseKeepsWords | project/btq_vault/operational_calendar.py:327-330 | collapsing keeps the words in their order with single spaces between them |
| Words.StripCutsBlanks | project/btq_vault/operational_calendar.py:327-330 | stripping cuts the blanks at both ends and nothing else |
| Calendar.AcceptedIsChronological | project/btq_vault/operational_calendar.py:85-161 | every event of an accepted calendar lies, as days, inside the coverage, ends no earlier than it starts, and shares its id with no other |
| Calendar.NormalIsExact | project/btq_vault/operational_calendar.py:85-330 | normalization returns a calendar unchanged exactly when it has the required fields and only allowed ones, every text is collapsed and passes the check of its field, the coverage does not end before it starts, every event lies inside it as days, event ids are distinct, and it was not verified before its source was retrieved |
| CalendarInput.AcceptedExactly | project/btq_vault/operational_calendar.py:85-330 | every input is accepted as a calendar if and only if that calendar is the input with its texts collapsed and is normal; every other input is refused |
| CalendarInput.ListAcceptedExactly | project/btq_vault/operational_calendar.py:164-178 | a list is accepted exactly when each of its calendars is and their ids are distinct |
| Calendar.NormalizationIsIdempotent | project/btq_vault/operational_calendar.py:85-161 | normalizing a normalized calendar changes nothing |
| Calendar.CalendarsAreSettled | project/btq_vault/operational_calendar.py:164-178 | an accepted list has distinct calendar ids and is normalized already |
| Calendar.NormalizeCalendar | project/btq_vault/operational_calendar.py:85-161 | the checks and the event loop accept exactly the calendars of the lemmas |
| Calendar.NormalizeEvents | project/btq_vault/operational_calendar.py:127-141 | the loop accepts the events exactly when all are normal, covered and distinct |
| Calendar.NormalizeCalendars | project/btq_vault/operational_calendar.py:164-178 | the loop over calendars accepts exactly the lists of the lemmas |

## Left out

- HTTP, JSON text, URL quoting, authentication and timeouts: a request is a GET or a PUT of a document; errors other
  than 404 and 409 end a call and are not steps of the machine.
- Revisions are numbers from one counter; in CouchDB they are opaque texts. The model needs only that none is reused.
  The server keeps `_id` and `_rev` itself and files a PUT under the id it is addressed to.
- Delivery by the changes feed, reconnection and the selector fallback of `listen`: nothing is claimed about which
  changes arrive.
- `derive_job_id` and `validate_job`: the derived id is a parameter, and any object with job type and payload is a job.
- The clock, random ids and file reading are parameters. Transforms passed to `update_doc` are pure functions; one that
  raises ends the call without a PUT, which for the store is the same as one that returns nothing.
- A client of `World` runs one operation. A program that runs several is several clients, whose order a schedule may fix
  in any way.
- Deleting documents: no modelled call does it.
- Finding and listing documents (`_find`, paging, sorting of results) only reads.
- TextOf: texts of values that are neither strings nor empty are one fixed text, because no modelled branch looks
  inside them.
- BuildCandidate: `capture_id`, `source_kind`, `person_id` and the proposed queue job are not built; no operation
  changes them and no result speaks of them.
- BuildDraft: text fields are taken to be text already.
- CandidateClient.NormalizedPatch: keys are taken as already stripped, and texts of `visit_proposed` are lowered as
  ASCII.
- Unset weekdays and the descriptive fields of facility hours, and reading exception dates from text: dates are values,
  and rules and weekday names are taken as already stripped and lowered.
- Other state names than the defaults of `mark_processing`, `mark_complete` and `mark_failed`.
- Time zones and daylight saving: facility hours run on one local clock. The year 9999 is not an end.
- Copying media files over SSH and writing intake files atomically: the stored intake is a value.
- Text heuristics of the digest: identity key, normalized text and its length are given with each candidate.
- `consolidate_site_observations`, `strongest_confidence` and `unique_preserve_order`: text summaries and one-line scans.
- HandleAll: how the store fails is chosen freely per file; the digest of etags is collision-free where contents matter.
  Guarding of object keys and the console output are not modelled.
- Repair.Client.SubmitPrefill: the service is any three replies; a body that is not an object is not modelled.
- The export manifest, hashes and path checks of `load_manifest`: items are given, with distinct targets that are not
  sources where the results need it. Reading text translates line ends; the model starts from the text as read.
- NormalCalendar: error messages are not modelled, only refusal. Time zone names, date-times, URLs and clock times are
  checked by functions that are parameters.

# Webhook gateway: a verified model

The service accepts webhooks from many vendors, normalises each payload into one reading (what entity,
what status, when, how sure), holds readings it is unsure of for a person, and keeps the latest trusted
state of every shipment and invoice. This project models that in Dafny and proves what the pieces
promise together. `dafny verify dfyconfig.toml` checks everything.

## How it is laid out

| file | component |
|---|---|
| `text.dfy`, `ordering.dfy`, `ordereddict.dfy`, `selections.dfy` | host-language strings, sorting by a total order, the insertion-ordered dictionary, what a filter keeps |
| `payload.dfy`, `documentorder.dfy` | JSON payloads, flattening, key lookup; which of several fields of one name answers |
| `vocabulary.dfy`, `statustoken.dfy`, `schemas.dfy` | entity types, statuses, word tables, vendor profiles; status tokens; the strict result shape |
| `rulesbackend.dfy`, `readings.dfy` | the rule-based reader and what its confidence means; what a reading says, read off the payload |
| `discovery.dfy`, `discovered.dfy` | profiles inferred from samples; what a discovery says, read off the samples |
| `discoverymerge.dfy`, `merges.dfy` | the merge of an untrusted proposal; what a merge takes from the model, read off the proposal |
| `entities.dfy`, `pipeline.dfy` | the latest-state projection; the pipeline as a state machine of atomic steps |
| `exclusion.dfy`, `ladder.dfy`, `promotions.dfy`, `trust.dfy` | what all runs of that machine keep |
| `gateway.dfy` | the tables as one object whose methods refine the steps |
| `keys.dfy`, `intake.dfy` | idempotency keys, and acceptance under two uniqueness constraints |
| `profilecache.dfy`, `routing.dfy`, `calibration.dfy`, `paging.dfy` | profile cache, burst counter, threshold advice, paging |

Conventions. Confidence counts thousandths: integers where the rule-based reader produces them, reals in
the calibration report, which also sees scores of other origins. Instants are integers. The timestamp parser, the
digest, the JSON serialiser and the clock are parameters, and nothing is assumed of them except where a
contract says so. The reader's word tables and key names form a `Lexicon`; theorems hold for every lexicon
of the stated shape, and `Vocabulary.GatewayAdmissible` shows that the tables in use have it. Loops and
in-place updates of the source are methods and classes proved against functions; the theorems are about
those functions. In the pipeline a run is any sequence of steps of any number of workers, reviewers and
operators; a step that does not apply changes nothing.

## Where the code falls short of its documentation

Each of these is proved: the exact condition under which it happens, and a run or an input in which it
does. The model follows the code.

- **One worker at a time.** A forced replay of a webhook that is being processed, or an unexpected failure
  of a *different* task of that webhook (the handler writes FAILED without holding the claim), lets a second
  worker in: `Exclusion.TwoWorkersAfterAForcedReplay`, `Exclusion.TwoWorkersAfterAForeignFailure`. Nothing
  else does: `Exclusion.ExclusionKeptExactly`. A webhook gets stuck only by the loss of its worker,
  `Exclusion.StuckAfterRunExactly`; a foreign failure also frees it, which otherwise only a forced replay can:
  `Exclusion.StuckUntilReleased`, `Exclusion.AForeignFailureFreesAStuckWebhook`.
- **The retry count.** The failure handler writes one more than the count it read before the claim, so with
  overlapping dispatches more retries can be queued than are recorded. It happens in exactly the failures
  that undercut another unfinished dispatch: `Ladder.CountKeptExactly`, `Ladder.RetryCountCanFallBehind`.
- **A decision is final and a reading is promoted once.** A slow worker that holds its own low reading sets
  the review flag on a row that a newer normalisation has rewritten; approving that row promotes a reading
  that was promoted already: `Promotions.TwiceIsPossibleExactly`, `Promotions.OneNormalisationPromotedTwice`.
- **Nothing is discarded.** A worker lost between storing an event and gating it leaves the event neither
  held nor promoted, and redelivery does not help as the webhook reads NORMALIZED:
  `Promotions.SettledKeptExactly`, `Promotions.AReadingCanBeDropped`.
- **A top-level key answers to its own name.** Not if a later container holds a field of the same name:
  `Payload.TopLevelNameBelongsToLastCarrier`, `Payload.TopLevelKeyCanBeReplaced`. If that field is blank the
  top-level value is not found at all, so a payload with a plain identifier can be refused for having none:
  `Payload.LookupSucceedsExactly`, `Payload.ATopLevelValueCanBeHidden`, `RulesBackend.ReadingFailsExactly`.
- **Every word seen at the chosen status path is mapped or reported.** Not after a merge that puts another
  known path first, unless each word there was seen at the old one or given a meaning:
  `DiscoveryMerge.ChosenPathAccountedExactly`, `DiscoveryMerge.AWordCanGoUnreported`.
- **A merged profile is canonical.** Not if the model changed the entity type and left a base word alone:
  `DiscoveryMerge.MergedProfileWellFormed`, `DiscoveryMerge.AMergeCanSpoilAProfile`.
- **Fitted keys are unique.** Except for a key of exactly 255 characters that spells out another's fitted
  form: `Keys.KeysCoincideExactly`, `Keys.AHeaderCanMasquerade`.
- **Recovery finds the row.** Except for an event id that is the empty text, which the extraction never
  produces: `Intake.RecoveryFailsExactly`, `Intake.AnEmptyEventIdIsRefused`, `Intake.RawWebhooks.Ingest`.
- **An accepted event is processed.** A process lost between the insert and the message leaves a row that is
  never enqueued, and redeliveries are absorbed by it: `Intake.ALostRowIsNeverEnqueued`,
  `Intake.ARowCanBeLost`.
- **The cache agrees with the table.** Except after a save or delete that changes what some reader has
  fetched and not yet stored: `ProfileCache.FreshnessKeptExactly`, `ProfileCache.OvertakingMisleads`,
  `ProfileCache.AReaderCanUndoAnInvalidation`.
- **A saved profile is the one served.** Not if another spelling of the vendor that sorts below it is stored,
  or the name has outer white space: `ProfileCache.SavedIsServedExactly`,
  `ProfileCache.AnotherSpellingIsServed`.
- **The suggested threshold releases every approval, and an overlap is real.** The first fails for exactly the
  decisions whose lowest approval rounds up, the second for exactly those whose extremes round to the same
  thousandth: `Calibration.WrongSuggestionExactly`, `Calibration.FalseOverlapExactly`,
  `Calibration.ASuggestionCanBeTooHigh`, `Calibration.AnOverlapCanBeFalse`; for whole thousandths both hold,
  `Calibration.WholeScoresAreJudgedRightly`.

## Model

| member | source | states |
|---|---|---|
| `Payload.FlattenPayload` | apps/normalization/backends/rules_backend.py:141-161 | the nested loops with `update` and `setdefault` build exactly the flattening specified by recursion over the payload |
| `Payload.FlattenValid` | apps/normalization/backends/rules_backend.py:149-161 | the result is a proper dictionary: its key order lists each present key once |
| `Payload.FlattenPinsEveryDeepLeaf` | apps/normalization/backends/rules_backend.py:145-157 | for keys without path punctuation, every scalar field below the top level is stored under its rendered path with its own value, and no other leaf renders to that path |
| `Payload.FlattenInventsNothing` | apps/normalization/backends/rules_backend.py:145-161 | a key is in the index exactly when it is the rendered path or the bare name of some real field, and its value is that of such a field |
| `Payload.RenderInjective` | apps/normalization/backends/rules_backend.py:152-160 | two addresses render to the same path only if they are the same address |
| `Payload.CarriesExactly` | apps/normalization/backends/rules_backend.py:150-161 | below a prefix, a plain name is in the index exactly when some scalar field inside, at whatever depth, has that name |
| `Payload.TopLevelNameBelongsToLastCarrier` | apps/normalization/backends/rules_backend.py:153-157 | a top-level scalar keeps its name exactly while no later container holds a field of that name; otherwise the name is answered the value of such a field, in the last container that holds one |
| `Payload.TopLevelKeyCanBeReplaced` | apps/normalization/backends/rules_backend.py:153-157 | a family of two-field payloads whose top-level value is lost |
| `Payload.FindFirstEntry` | apps/normalization/backends/rules_backend.py:164-175 | the two scans with early return compute the specified lookup |
| `Payload.FirstEntryMeans` | apps/normalization/backends/rules_backend.py:164-175 | a lookup succeeds exactly when some requested key names, or ends, a non-blank entry, and answers such an entry's value |
| `Payload.EarliestWholeKeyDecides` | apps/normalization/backends/rules_backend.py:167-169 | the earliest requested key that is present whole and not blank decides, before any path ending |
| `Payload.EarliestEndingDecides` | apps/normalization/backends/rules_backend.py:171-174 | otherwise the earliest requested key that some path ends in decides, with the value of the first such path in flattening order |
| `Payload.LookupFindsNestedField` | apps/normalization/backends/rules_backend.py:141-175 | any requested plain name that a non-blank nested field carries is found, and the answer is the value of a real field reached under the reported key |
| `Payload.LookupSucceedsExactly` | apps/normalization/backends/rules_backend.py:141-175 | whatever is requested, a lookup succeeds if and only if some requested key is the path or the name of a non-blank field below the top level, or the name of a non-blank top-level scalar that no later container overrides |
| `Payload.LookupAnswersAField` | apps/normalization/backends/rules_backend.py:164-175 | and its answer is the non-blank value of a real field requested by path or by name |
| `Payload.ATopLevelValueCanBeHidden` | apps/normalization/backends/rules_backend.py:153-175 | a family of payloads with a top-level value that the lookup of its name does not find |
| `DocumentOrder.PathsInOrder` | apps/normalization/backends/rules_backend.py:149-161 | of two fields whose paths cannot be mistaken for names, the one that comes first in the document comes first in the flattening |
| `DocumentOrder.FirstFieldAnswers` | apps/normalization/backends/rules_backend.py:171-175 | when no requested key is an entry as it stands, the earliest requested name of a non-blank field below the top level decides, and of the fields of that name the first in the document answers |
| `StatusTokens.StatusTokenWellFormed` | apps/normalization/backends/rules_backend.py:201-203 | a status token has only lower-case letters and digits in parts joined by single underscores, none outside |
| `StatusTokens.StatusTokenIdempotent` | apps/normalization/backends/rules_backend.py:201-203 | tokenising a token leaves it alone |
| `StatusTokens.TokenParts` | apps/normalization/backends/rules_backend.py:362-362 | splitting a token at underscores gives non-empty alphanumeric parts |
| `StatusTokens.StatusTokenJoinsRuns` | apps/normalization/backends/rules_backend.py:201-203 | a status token is the text's maximal runs of letters and digits, lowered and joined by underscores |
| `StatusTokens.SameTokenExactly` | apps/normalization/backends/rules_backend.py:201-203 | two texts have one token if and only if their runs of letters and digits agree without regard to case |
| `Schemas.Check` | apps/normalization/schemas.py:30-64 | whatever is accepted has a status of its own type, an identifier, and a confidence between 0 and 1 |
| `Schemas.FromDictMeans` | apps/normalization/schemas.py:30-64 | whatever is accepted keeps type, time, confidence and evidence, its identifier stripped and its status read without case; a reading whose status fits its type and that has a stripped identifier is accepted as it is |
| `Schemas.FromDictAcceptsExactly` | apps/normalization/schemas.py:30-64 | any input is accepted if and only if it names a listed type and a status of that type in whatever case, has an identifier that is not blank, a time, and a confidence from 0 to 1; it is stored under those names |
| `Vocabulary.GatewayAdmissible` | apps/normalization/backends/rules_backend.py:52-131 | the tables in use: every word's status belongs to its type, every status of a type has a word, hints contain no space |
| `RulesBackend.ReadStatus` | apps/normalization/backends/rules_backend.py:333-373 | the early-return scan over endings computes the specified status and confidence |
| `RulesBackend.ReadTokenMeans` | apps/normalization/backends/rules_backend.py:349-373 | a token clears the default threshold exactly when some ending of it is a known word; otherwise the default status at 0.3 |
| `RulesBackend.LongestKnownEndingIsTheReading` | apps/normalization/backends/rules_backend.py:349-373 | the longest known ending decides; there the vendor's word outranks the table, and the table scores 0.9 for the whole token and 0.75 for a part |
| `RulesBackend.LongestEndingDecides` | apps/normalization/backends/rules_backend.py:362-370 | the same for the scan over proper endings from any starting point |
| `RulesBackend.ClassifyMeans` | apps/normalization/backends/rules_backend.py:292-317 | the type is always a listed one, a profile's type always wins, and anything but UNCLASSIFIED scores at least the default threshold |
| `RulesBackend.ClassifyDecides` | apps/normalization/backends/rules_backend.py:302-317 | without a profile's type the identifier's key decides, else the larger hint count; UNCLASSIFIED exactly on a tie, and only that is below the threshold |
| `RulesBackend.StatusConfidenceMeans` | apps/normalization/backends/rules_backend.py:333-373 | a status clears the default threshold exactly when the type is known and an ending of the word is recognised |
| `RulesBackend.EventTimeMeans` | apps/normalization/backends/rules_backend.py:375-393 | a time said to be the payload's is the parse of the value found there, at 0.95 or more, a profile's own path first; otherwise it is the arrival time at exactly 0.4 |
| `RulesBackend.Normalize` | apps/normalization/backends/rules_backend.py:214-274 | the reader, run over the payload, gives the reading of its flattening that `Readings.ReadingMeans` describes field by field |
| `RulesBackend.GateReleasesExactlyTheUnguessed` | apps/normalization/backends/rules_backend.py:214-231 | at the 0.70 threshold a reading is trusted if and only if its type is SHIPMENT or INVOICE, an ending of its status word is known, and the payload supplied its time; an arrival-time guess scores at most 0.4 |
| `RulesBackend.StatusCanonical` | apps/normalization/backends/rules_backend.py:333-373 | with a well-formed profile the status read always belongs to the type read |
| `RulesBackend.OnlyAMissingIdentifierFails` | apps/normalization/backends/rules_backend.py:214-260 | with a well-formed profile, normalising fails if and only if there is no identifier, and its result is never refused by the strict schema |
| `RulesBackend.ReadingFailsExactly` | apps/normalization/backends/rules_backend.py:214-227 | for any well-formed profile: the reading fails for want of an identifier if and only if the payload supplies no identifier key, or supplies one and the real field that answers is not blank but only white space |
| `RulesBackend.ReadingFailsWithoutSpaces` | apps/normalization/backends/rules_backend.py:214-227 | without such a field it fails if and only if the payload supplies no identifier key |
| `Readings.ReadingMeans` | apps/normalization/backends/rules_backend.py:214-260 | whatever is read: the identifier is the stripped text of the field that answers the identifier keys, the vendor's paths first; type, status and time are those of the four rows below; the confidence is the least of their scores; the evidence names the status text and what was found |
| `Readings.ClassifyReads` | apps/normalization/backends/rules_backend.py:292-317 | the type is the profile's, else the one whose identifier keys have the answering key's name, else the one more of whose hints occur in entries that do not name the sender, else none, with the score of each case |
| `Readings.HintCountMeans` | apps/normalization/backends/rules_backend.py:302-316 | the count is of the hints that occur in some entry, each once |
| `Readings.StatusReads` | apps/normalization/backends/rules_backend.py:333-373 | the status is the meaning of the longest known ending of the looked-up text's token, the vendor's word before the table's; the type's default when none is known or nothing was found, UNKNOWN without a type; with the score of each case |
| `Readings.TimeReads` | apps/normalization/backends/rules_backend.py:375-393 | the time is the parse of what the profile's paths lead to, else of what those and the generic keys lead to, else the arrival; found exactly in the first two cases, with their scores |
| `Readings.CanonicalNamesAreUnderstood` | apps/normalization/backends/rules_backend.py:83-97 | in the tables in use, the canonical name of a status is read as that status, at 0.9 |
| `Discovery.PathValues` | apps/normalization/discovery.py:139-147 | the nested loops collect, for every path, the non-blank values of all samples in order |
| `Discovery.AddSample` | apps/normalization/discovery.py:143-146 | one sample appends its non-blank values at its own paths and nowhere else |
| `Discovery.BeforeTotal` | apps/normalization/discovery.py:175-175 | score, coverage and path order any two scored paths strictly |
| `Discovery.ScorePaths` | apps/normalization/discovery.py:167-174 | the scoring loop keeps exactly the paths that pass the test, once each, with their scores |
| `Discovery.Rank` | apps/normalization/discovery.py:160-176 | the result lists exactly the paths that pass the test and are vouched for by name or full coverage, best first |
| `Discovery.RankingUnique` | apps/normalization/discovery.py:160-176 | only one list satisfies that description |
| `Discovery.RankingOrderFree` | apps/normalization/discovery.py:160-218 | rankings of permuted samples are equal |
| `Discovery.TestsOrderFree` | apps/normalization/discovery.py:179-217 | the three field tests do not depend on the order of the values seen |
| `Readings.HintInBlob` | apps/normalization/discovery.py:231-238 | a hint without spaces occurs in the joined text exactly when it occurs in one of its entries |
| `Discovery.ClassifySamplesOrderFree` | apps/normalization/discovery.py:220-243 | the entity type does not depend on the order of the samples |
| `Discovery.MatchEnding` | apps/normalization/discovery.py:263-267 | the search over proper endings finds the longest one in the table |
| `Discovery.MapStatuses` | apps/normalization/discovery.py:246-273 | every word is mapped to its meaning in the table or to nothing; the unread ones are listed once, sorted |
| `Discovery.FaithfulWordsPreserveStatus` | apps/normalization/discovery.py:246-273 | under any vocabulary whose entries agree with the generic table, every status text gets the same status, never a lower confidence, and clears the threshold exactly when it did before |
| `Discovery.DiscoverStatistically` | apps/normalization/discovery.py:276-318 | the loops arrive at the discovery that the samples call for, which `Discovered.DiscoveryMeans` describes field by field |
| `Discovery.DiscoveryIgnoresSampleOrder` | apps/normalization/discovery.py:276-318 | discoveries from permuted samples are identical: paths, type, status map, unmapped words, warnings |
| `Discovery.DiscoveredVocabularyPreservesMeaning` | apps/normalization/discovery.py:246-318 | a discovered profile reads every status text as the generic reader reads it for that type |
| `Discovered.DiscoveryMeans` | apps/normalization/discovery.py:276-318 | whatever is discovered: each path list is the best four of a ranking of exactly the qualifying paths, the type and the words are those of the rows below, the vendor and the number of samples are recorded, and each warning is given exactly when its part was not found |
| `Discovered.ClassifySamplesMeans` | apps/normalization/discovery.py:220-243 | SHIPMENT, INVOICE and no type, each exactly when: the name of the best identifier path decides, then the larger number of hints that occur in some entry of some sample; a tie leaves it open |
| `Discovered.OneSampleAgrees` | apps/normalization/discovery.py:220-243 | on one sample the discovered type is the reader's own, none where the reader leaves it unclassified |
| `Discovered.RankingIsRanked` | apps/normalization/discovery.py:160-176 | the ranked paths are exactly those with a value in some sample that behave as asked and have a scoring name or a value in every sample; better name first, then better coverage, then text order |
| `Discovered.NameScoreMeans` | apps/normalization/discovery.py:150-157 | a path whose own name is the i-th of n keys scores n - i; another scores 1 if it contains some key, whatever the case, and 0 otherwise |
| `Discovered.TestsMean` | apps/normalization/discovery.py:179-217 | an identifier is text or whole, never repeats and is not all timestamps; a status is short text without digits, which a constant or lone one needs its name for; a time always parses |
| `Discovered.ProposalWordsFound` | apps/normalization/discovery.py:246-273 | the words at the best status path are exactly those mapped or reported: mapped to the meaning of the longest known ending, reported in text order when there is none |
| `DiscoveryMerge.MergeWords` | apps/normalization/discovery.py:380-390 | the loop over the proposed words computes the specified draft |
| `DiscoveryMerge.KeepProposed` | apps/normalization/discovery.py:364-372 | the filtering keeps exactly the proposed paths that the samples have and the paths found before, and adds one warning with the number dropped |
| `DiscoveryMerge.MergeModelProposal` | apps/normalization/discovery.py:351-410 | the merge is the one `Merges.MergeMeans` describes; whatever is proposed: the vendor stays, known paths stay known, every word accounted for stays so, and a well-formed profile stays so if and only if the type is unchanged or every base word was overridden |
| `DiscoveryMerge.MergeEntriesMeans` | apps/normalization/discovery.py:382-390 | a word changes exactly when some accepted entry names it: then it has an allowed status and is no longer unmapped |
| `DiscoveryMerge.StatisticalDiscoveryGrounded` | apps/normalization/discovery.py:276-318 | every path occurs in the samples, each word seen is in exactly one of the map and the unmapped list, and the profile is well-formed |
| `DiscoveryMerge.MergeStaysGrounded` | apps/normalization/discovery.py:351-410 | whatever the proposal, merging keeps paths in the samples, and every word seen at the base's status path mapped or reported |
| `DiscoveryMerge.MergedWordsComeFromSomewhere` | apps/normalization/discovery.py:379-390 | a merged word is either canonical for the merged type or unchanged from the base |
| `DiscoveryMerge.MergedProfileWellFormed` | apps/normalization/discovery.py:374-390 | the merged profile is well-formed if and only if the type is unchanged or every base word was given a new meaning |
| `DiscoveryMerge.ChosenIsFirst` | apps/normalization/discovery.py:364-372 | the merged profile puts the first known proposed status path first, or else the base's |
| `DiscoveryMerge.ChosenPathAccountedExactly` | apps/normalization/discovery.py:351-410 | the words at the merged profile's own status path are all mapped or reported if and only if each was seen at the base's path or given a meaning by the proposal |
| `DiscoveryMerge.AWordCanGoUnreported` | apps/normalization/discovery.py:351-410 | a proposal that moves the status path and maps nothing leaves a new word neither mapped nor reported |
| `DiscoveryMerge.AMergeCanSpoilAProfile` | apps/normalization/discovery.py:374-380 | any profile with a mapped word stops being well-formed when a proposal changes its type and maps nothing |
| `Merges.MergeMeans` | apps/normalization/discovery.py:351-410 | a type named in whatever case replaces the base's, and nothing else does; the last entry that gives a word a status of that type decides it, and a word no entry gives one keeps the base's; each path list is the first four of the usable proposals in the model's order and then the others; vendor, counts, source and the first 500 characters of the notes |
| `Merges.MergeWarnsExactly` | apps/normalization/discovery.py:360-390 | a warning is new exactly for a type that is none, an entry that names no status of the merged type, and the number of proposed paths in no sample |
| `Merges.ModelPathsMean` | apps/normalization/discovery.py:364-370 | the proposed paths kept are those given as text or whole number that some sample has, in order and as often as proposed |
| `Entities.EntityStates.UpsertIfNewer` | apps/entities/repositories.py:14-41 | get-or-create followed by the conditional update; the rows stay the replay of the log |
| `Entities.RowIsFirstNewest` | apps/entities/repositories.py:14-41 | an entity has a row exactly when it was promoted, and it is the first of its promotions with the greatest time |
| `Entities.UpsertMonotone` | apps/entities/repositories.py:28-32 | a row never goes away or back in time, and changes only for a strictly newer event of its own entity |
| `Entities.PromotionOrderDoesNotMatter` | apps/entities/repositories.py:10-41 | the same promotions in any order agree on which entities exist and on their times, and on the whole row where equal times carry equal contents |
| `Gateway.Tables.Ingest` | apps/ingestion/services.py:35-52 | the first delivery makes a row and a dispatch, a repeat neither |
| `Gateway.Tables.Replay` | apps/ingestion/services.py:79-91 | queued exactly when the webhook is there and the replay forced or not in flight; then the row reads RECEIVED and a fresh dispatch waits |
| `Gateway.Tables.LookUp` | apps/normalization/tasks.py:24-34 | the unlocked look goes on exactly if the webhook is there and not NORMALIZED, keeping a copy of it; it writes no row |
| `Gateway.Tables.Claim` | apps/normalization/tasks.py:37-46 | the locked claim succeeds exactly if the row is there and not PROCESSING, and then it reads PROCESSING |
| `Gateway.Tables.CreateForWebhook` | apps/normalization/repositories.py:14-47 | the atomic create: one row per webhook with a new number, review fields cleared, status NORMALIZED, every other row untouched |
| `Gateway.Tables.ApplyConfidenceGate` | apps/normalization/review.py:59-87 | held exactly below the threshold: then the row's review flag is set and nothing promoted, otherwise the very event is promoted and no flag set |
| `Gateway.Tables.HandleRetryable` | apps/normalization/tasks.py:81-119 | a retry is scheduled, with its delay, exactly while retries are left, otherwise DEAD_LETTER; the row's count is one more than the copy's |
| `Gateway.Tables.HandlePermanent` | apps/normalization/tasks.py:120-128 | after a permanent failure the row reads FAILED and is otherwise as it was, the dispatch is done and nothing else has changed |
| `Gateway.Tables.HandleUnexpected` | apps/normalization/tasks.py:129-144 | after an unexpected failure, claim or no claim, the row reads FAILED and the dispatch is done |
| `Gateway.Tables.ApplyReviewDecision` | apps/normalization/review.py:90-131 | a decision is recorded, with its time, exactly for a held, undecided event; an approval promotes the event and a rejection nothing; true is answered for every approval |
| `Exclusion.ExclusionKeptExactly` | apps/normalization/tasks.py:37-66 | every step keeps at most one worker between claim and outcome, with the row PROCESSING, if and only if it is not a forced replay or a foreign unexpected failure of a held webhook |
| `Exclusion.ExclusionOverRuns` | apps/normalization/tasks.py:37-66 | exclusion in every state of every run without such a step |
| `Exclusion.TwoWorkersAfterAForcedReplay` | apps/ingestion/services.py:79-91 | a reachable state with two workers in one webhook after a forced replay |
| `Exclusion.TwoWorkersAfterAForeignFailure` | apps/normalization/tasks.py:129-132 | a reachable state with two workers in one webhook and no replay forced |
| `Exclusion.EveryOutcomeCanBeReplayed` | apps/normalization/tasks.py:48-144 | each outcome a worker records, which status it leaves, and that an unforced replay then queues a fresh dispatch |
| `Exclusion.GetsStuckExactly` | apps/normalization/tasks.py:37-144 | from any state, a step leaves a webhook PROCESSING with nobody on it, that was not so before, if and only if it is the loss of the only worker that has it while the row reads PROCESSING |
| `Exclusion.GetsStuckByItsHolder` | apps/normalization/tasks.py:37-144 | under exclusion that is exactly a crash of the webhook's holder |
| `Exclusion.StuckAfterRunExactly` | apps/normalization/tasks.py:37-144 | after any run a webhook is stuck if and only if its only worker was lost at some point and no later step was one of those that release it |
| `Exclusion.StuckUntilReleased` | apps/ingestion/services.py:79-91 | a stuck webhook stays stuck under every step except exactly a forced replay or an unexpected failure of a task past its look |
| `Exclusion.AForeignFailureFreesAStuckWebhook` | apps/normalization/tasks.py:129-132 | a reachable stuck webhook and the failure of another task that frees it |
| `Exclusion.StuckForever` | apps/normalization/tasks.py:37-44 | over any run without such a step it stays stuck, however often messages are redelivered |
| `Ladder.TotalDelayClosedForm` | apps/normalization/tasks.py:89-101 | N retries wait 2^N-1 seconds in all up to N = 9, and 511 + 300(N-9) beyond |
| `Ladder.DispatchesAreBounded` | apps/normalization/tasks.py:19-119 | in every run a dispatch executes at most six times plus once per crash, and waits at most 31 seconds |
| `Ladder.CountKeptExactly` | apps/normalization/tasks.py:81-119 | every step keeps the retries of unfinished dispatches within the webhook's count, and DEAD_LETTER at a count of six or more, if and only if it is not a failure that undercuts another unfinished dispatch |
| `Ladder.AloneNeverFallsBehind` | apps/normalization/tasks.py:81-119 | with one unfinished dispatch per webhook every step keeps it |
| `Ladder.CountOverRuns` | apps/normalization/tasks.py:81-119 | the same in every run without an undercutting failure |
| `Ladder.RetryCountCanFallBehind` | apps/normalization/tasks.py:24-85 | a reachable state with three retries queued and a count of two |
| `Promotions.ConsistencyOverRuns` | apps/normalization/repositories.py:21-46 | in every run the projection is the replay of the log, NORMALIZED implies an event, and a decision implies a held and reviewed one |
| `Promotions.ProjectionOverRuns` | apps/entities/repositories.py:14-41 | in every run each entity's row is the first newest of its logged promotions |
| `Promotions.StepsOnlyMoveForward` | apps/entities/repositories.py:28-32 | no step unwrites a promotion, removes an entity or moves it back in time |
| `Promotions.DecisionsAreFinal` | apps/normalization/review.py:104-120 | a recorded decision stays as it is until its webhook is normalised again |
| `Promotions.NumberedKept` | apps/normalization/repositories.py:21-43 | each normalisation is carried by at most one gate and one row, of the same webhook |
| `Promotions.TwiceIsPossibleExactly` | apps/normalization/review.py:59-131 | after a step, a run without further late holds can promote one normalisation twice if and only if the step was a late hold of a rewritten row that is promoted or still gated |
| `Promotions.WrongHoldPromotesTwice` | apps/normalization/review.py:70-112 | after a late hold at most two more steps promote the flagged reading twice: an approval, and the other gate if it still has the reading |
| `Promotions.PromotedOnceKeptExactly` | apps/normalization/review.py:70-86 | the invariant behind that: nothing promoted twice or after a rejection, and no row flagged whose reading is promoted or still gated, is kept by every step except exactly a late hold |
| `Promotions.PromotedOnceOverRuns` | apps/normalization/review.py:59-131 | the same over every run without such a hold |
| `Promotions.OneNormalisationPromotedTwice` | apps/normalization/review.py:70-112 | a reachable state in which one normalisation was promoted twice |
| `Promotions.SettledKeptExactly` | apps/normalization/tasks.py:54-66 | every current reading stays gated, promoted or held, if and only if the step does not lose a worker at its gate |
| `Promotions.SettledOverRuns` | apps/normalization/tasks.py:54-66 | the same over every run that loses no worker there |
| `Promotions.AReadingCanBeDropped` | apps/normalization/tasks.py:54-66 | a reachable state in which a normalised webhook's reading is neither promoted, held nor ever to be gated |
| `Trust.TrustedExactlyWhenUnguessed` | apps/normalization/review.py:68-70 | a stored reading of a payload clears the default threshold exactly when nothing in it was guessed |
| `Trust.UnreviewedPromotionsAreUnguessed` | apps/normalization/tasks.py:48-66 | in any interleaving of workers with one lexicon and one timestamp parser, a promotion no person made is what that reader makes, with a profile in force for the webhook, of the webhook's own payload, and type, status word and time were all found |
| `Trust.GuessedPayloadsWait` | apps/normalization/tasks.py:48-66 | a webhook whose payload that reader can only guess at, under every profile in force, is never promoted without a person |
| `Keys.ExternalEventIdMeans` | apps/ingestion/utils.py:17-26 | the first known key under which the payload says something that is neither null nor blank decides; the id is that text, cut to 255 characters, and never empty |
| `Keys.FitMeans` | apps/ingestion/utils.py:35-39 | a fitted key has at most 255 characters, fitting is idempotent, and changes exactly the longer keys |
| `Keys.FitCollidesExactly` | apps/ingestion/utils.py:35-39 | two keys with different digests fit alike if and only if they are equal or one is 255 long and spells out the other's fitted form |
| `Keys.RawKeysDistinguish` | apps/ingestion/utils.py:56-62 | before fitting, one vendor's header, event-id and payload keys coincide only for the same source and text |
| `Keys.KeysCoincideExactly` | apps/ingestion/utils.py:42-62 | the key as stored identifies the most authoritative identity, up to the one exception above |
| `Keys.AHeaderCanMasquerade` | apps/ingestion/utils.py:56-57 | for any header whose key is too long there is another header text, unchanged by stripping, that gets the same key |
| `Keys.SameIdentityExactly` | apps/ingestion/utils.py:56-62 | two deliveries have one identity if and only if their stripped headers are equal, or without a header on either side their event ids, or without those their serialised payloads |
| `Intake.IntakeOverRuns` | apps/ingestion/repositories.py:20-57 | however deliveries interleave and processes die: no two rows clash, every answer is the delivery's own row or one it clashes with, and each row is made by one delivery and enqueued once when that delivery settles |
| `Intake.RecoveryFailsExactly` | apps/ingestion/repositories.py:41-56 | recovery after a violated constraint finds a row unless the event id is the empty text and no row has the key |
| `Intake.AnEmptyEventIdIsRefused` | apps/ingestion/repositories.py:51-56 | two deliveries with the empty text for an event id, the second of which ends in the error |
| `Intake.MatchedCreatesNothing` | apps/ingestion/repositories.py:33-57 | once a row clashes with a delivery, that delivery makes no row in any continuation |
| `Intake.RedeliveryIsAbsorbed` | apps/ingestion/services.py:35-52 | repeating any delivery that was ever answered makes no row, and none of its moves changes the table or the queue, whatever else goes on |
| `Intake.ALostRowIsNeverEnqueued` | apps/ingestion/services.py:43-52 | the row of a process lost between insert and message stays and is never enqueued, in any continuation |
| `Intake.ARowCanBeLost` | apps/ingestion/services.py:43-52 | the run that loses one |
| `Intake.FourMovesSettle` | apps/ingestion/repositories.py:33-57 | every move of a delivery brings it closer to its end, which is at most four moves away |
| `Intake.RawWebhooks.Insert` | apps/ingestion/models.py:46-55 | the table refuses exactly the rows that clash |
| `Intake.RawWebhooks.CreateOrGet` | apps/ingestion/repositories.py:20-57 | undisturbed: a row is made exactly when none clashes; otherwise the same key answers first, then the same event id |
| `Intake.RawWebhooks.Ingest` | apps/ingestion/services.py:22-66 | accepting a payload never fails, and sends one message exactly when it made a row |
| `Intake.DeliveriesShareARowExactly` | apps/ingestion/services.py:26-40 | two deliveries share a row if and only if one vendor sent both and they say they are one event, by stripped header, else event id, else serialised payload, or carry one event id; masquerading keys aside |
| `Intake.UnnamedDeliveriesShareARowExactly` | apps/ingestion/utils.py:60-62 | with no header and no event id there is no exception: one row if and only if the payloads serialise alike |
| `Intake.LeftAloneItIsCreated` | apps/ingestion/repositories.py:33-40 | a delivery that no row clashes with, left alone, makes its row and one message |
| `Intake.LeftAloneItIsFound` | apps/ingestion/repositories.py:33-40 | one whose key a row has settles on that row and changes nothing |
| `Intake.LeftAloneItIsMatched` | apps/ingestion/repositories.py:41-56 | one that clashes by its event id alone settles on the row with that id, unless the id is empty, and changes nothing |
| `ProfileCache.Profiles.ProfileFor` | apps/normalization/vendors.py:119-139 | a read answers what is specified, and from an agreeing cache what the table says, leaving the cache in agreement |
| `ProfileCache.Profiles.SaveProfile` | apps/normalization/repositories.py:61-76 | refines the save with its invalidation; agreement is kept, and the vendor is answered this profile next unless it is pinned, has outer white space or another spelling goes before |
| `ProfileCache.Profiles.DeleteProfile` | apps/normalization/repositories.py:83-86 | refines the case-blind delete with its invalidation; agreement is kept and the vendor is answered nothing next |
| `ProfileCache.Profiles.RegisterProfile` | apps/normalization/vendors.py:87-89 | refines pinning a profile in code; every spelling of the vendor is answered it from then on |
| `ProfileCache.GovernsMeans` | apps/normalization/vendors.py:133-133 | a profile governs its spellings exactly when no stored spelling of the vendor sorts below it |
| `ProfileCache.SavedHere` | apps/normalization/repositories.py:61-76 | a save makes its vendor's lookup answer the saved profile unless a stored spelling sorts below it, and then changes nothing |
| `ProfileCache.SavedIsServedExactly` | apps/normalization/repositories.py:61-76 | what the vendor is served after a save, in every case |
| `ProfileCache.AnotherSpellingIsServed` | apps/normalization/vendors.py:133-133 | a save that changes no answer |
| `ProfileCache.LookupMeans` | apps/normalization/vendors.py:133-134 | the uncached lookup answers the least vendor name that reads as the key, and nothing only if none does |
| `ProfileCache.KeysAgreeExactly` | apps/normalization/vendors.py:77-78 | two vendor names have one key if and only if they agree without regard to case and outer white space |
| `ProfileCache.SavedRows` | apps/normalization/repositories.py:61-76 | a save leaves exactly one row for its vendor, the profile saved, and every other row as it is |
| `ProfileCache.DeletedRows` | apps/normalization/repositories.py:83-86 | a delete leaves exactly the rows of other vendors |
| `ProfileCache.DeletedMeans` | apps/normalization/repositories.py:83-86 | after a delete the vendor's own lookup is empty and every other is unchanged |
| `ProfileCache.ChangesExactly` | apps/normalization/repositories.py:61-86 | which saves and deletes change what a key is answered by the table |
| `ProfileCache.FreshnessKeptExactly` | apps/normalization/vendors.py:119-144 | saves, deletes, expiries, pins, fetches and stores keep cache and readers in step with the table if and only if the step is not a save or delete that changes what some reader has fetched and not stored |
| `ProfileCache.OvertakingMisleads` | apps/normalization/vendors.py:133-138 | after such a write the reader's store makes a wrong answer |
| `ProfileCache.ServedIsUncached` | apps/normalization/vendors.py:119-144 | after any run without such a write, however readers interleave, every vendor is answered as without a cache |
| `ProfileCache.UninterruptedReadsAreUncached` | apps/normalization/vendors.py:119-144 | with reads nobody interrupts, after any sequence of saves, deletes, pins, expiries and reads whatever every vendor is answered as without a cache |
| `ProfileCache.UninterruptedReadsAreRecent` | apps/normalization/vendors.py:119-138 | the same with writes that skip the invalidation: what is served was the table's answer less than 60 seconds ago |
| `ProfileCache.AReaderCanUndoAnInvalidation` | apps/normalization/vendors.py:127-138 | fetch, save, store: the cache now answers a miss for a saved profile |
| `ProfileCache.ServedWasTrueRecently` | apps/normalization/vendors.py:119-138 | whoever writes the table, a served answer was true when fetched, less than 60 seconds before the present beyond the reader's own delay |
| `Routing.ArrivalCounter.RecordArrival` | apps/ingestion/routing.py:63-75 | with the cache reachable the count is the number of arrivals so far in the window under names that are this vendor's, the lifetime notwithstanding; otherwise 0; other counters are untouched |
| `Routing.ArrivalCounter.RouteFor` | apps/ingestion/routing.py:78-98 | the default lane takes an arrival if and only if there is no cache, no positive burst, or fewer than a burst of this vendor's arrivals before it in the window |
| `Routing.LiveInItsWindow` | apps/ingestion/routing.py:53-71 | a counter cannot expire inside the window it counts |
| `Routing.AdmittedInOneWindow` | apps/ingestion/routing.py:78-93 | a window admits to the default lane exactly the smaller of the arrivals and the burst |
| `Routing.BurstBound` | apps/ingestion/routing.py:47-98 | wherever an interval of m windows starts, at most (m + 1) bursts of a vendor reach the default lane in it |
| `Routing.OtherVendorsDoNotMatter` | apps/ingestion/routing.py:43-60 | a vendor's count is that of its own arrivals alone |
| `Routing.VendorsShareAKeyExactly` | apps/ingestion/routing.py:43-44 | two names share a counter if and only if, stripped, they agree without regard to case, the empty name read as unknown |
| `Routing.NoisyNeighbours` | apps/ingestion/routing.py:43-98 | however many arrivals under names of other vendors, they leave a vendor's count, and so its lane, as it is |
| `Calibration.CalibrationReport` | apps/normalization/calibration.py:163-229 | one line exactly for each vendor with an event in the period, in name order, each as `Calibration.LineMeans` describes it |
| `Calibration.LineMeans` | apps/normalization/calibration.py:163-229 | a line's events are the vendor's of the period, each once; it counts them, the held, the approved and the rejected among them, and its means, times the number of scores, make up their sum before rounding |
| `Calibration.SeparableExactly` | apps/normalization/calibration.py:132-136 | some threshold separates approvals from rejections exactly when the lowest approval is above the highest rejection or a group is empty |
| `Calibration.RoundsUpExactly` | apps/normalization/calibration.py:102-103 | rounding lifts a score exactly when its fraction is above a half, or a half above an odd whole |
| `Calibration.SuggestedExactly` | apps/normalization/calibration.py:106-146 | for which decisions a threshold is suggested, and that it is the lowest approval, rounded |
| `Calibration.SuggestionMeans` | apps/normalization/calibration.py:137-147 | a suggestion is below the present threshold and holds every rejection; it releases every approval exactly when the lowest approval does not round up |
| `Calibration.WrongSuggestionExactly` | apps/normalization/calibration.py:106-147 | a suggestion that does not separate is made for exactly the decisions, enough and told apart by the report, whose lowest approval rounds up to below the present threshold |
| `Calibration.OverlapMeans` | apps/normalization/calibration.py:106-160 | an overlap is reported for exactly the decisions, enough and of both kinds, whose lowest approval does not round above the highest rejection |
| `Calibration.FalseOverlapExactly` | apps/normalization/calibration.py:106-160 | an overlap is reported although a threshold separates for exactly the decisions, enough and of both kinds, with the lowest approval above the highest rejection but rounding alike |
| `Calibration.RatesAreShares` | apps/normalization/calibration.py:60-66 | hold and approval rate are the held and approved shares in thousandths, rounded, full when every event was held or every decision an approval; the approval rate is given exactly when something was decided |
| `Calibration.WholeScoresAreJudgedRightly` | apps/normalization/calibration.py:106-160 | for whole thousandths the verdict is right in both directions and a suggestion always separates |
| `Calibration.ASuggestionCanBeTooHigh` | apps/normalization/calibration.py:137-147 | five approvals whose suggested threshold would hold them all |
| `Calibration.AnOverlapCanBeFalse` | apps/normalization/calibration.py:155-160 | five decisions that a threshold separates and the report says none can |
| `Paging.PaginateMeans` | apps/normalization/paging.py:54-89 | a page is given exactly when every supplied parameter is a number in range, with the true total and the rows at those positions; a supplied limit stays within the cap |
| `Paging.WalkShowsEverything` | apps/normalization/paging.py:34-37 | following the next link from the start shows the whole listing, each row once and in order, in the least number of pages |
| `Paging.WalkShowsTheRest` | apps/normalization/paging.py:34-37 | the same from any offset within the listing |
| `Paging.WalkRetraces` | apps/normalization/paging.py:34-41 | page i starts at i limits and its previous link leads to the page before it |
| `Paging.PreviousLinkMeans` | apps/normalization/paging.py:39-41 | from any offset the previous link leads one limit back, or to the start when that is nearer; exactly the first page has none |
| `Paging.WalkBackShowsTheRest` | apps/normalization/paging.py:39-41 | following previous links from any offset shows every row before it |
| `Paging.WalkBackStops` | apps/normalization/paging.py:39-41 | and takes the least number of pages that do |

## Left out

- HTTP views, DRF serialisation, the Django admin, URL routing, seed and demo scripts: plumbing around the operations above. Of the serialisers only the rule that a status map is canonical for its type appears, as `WellFormedProfile`.
- The OpenAI client, its prompts and its answers: a proposal is arbitrary input to the merge, and a reading is arbitrary input to the pipeline except in `Trust`.
- Unicode: characters are lowered, stripped and tokenised as ASCII.
- Timestamp parsing, digests, JSON serialisation, clocks: parameters. The cache keys of profiles and of counters are taken to be injective, where the code uses twenty digits of a SHA-1.
- RulesBackend.OnlyAMissingIdentifierFails: the timestamp parser is assumed not to raise; the code's converts a number to a float before its handler, so an integer too large for a float raises out of the reader.
- A save or delete of a profile and its invalidation are one step, though the code writes the row first and drops the entry after; a read between the two may still be answered the old profile.
- Floats in payloads: carried as the text they print as.
- JSON object keys are text; array elements that are bare scalars have no key and are not indexed, as in the code.
- Redis visibility timeouts, broker duplicates and worker pools: a dispatch is delivered again only after a crash.
- Error messages, review notes, logs, durations and correlation ids; discovery's warnings are kept as values, not as prose.
- Concurrent reviewers of one event, and replays split between reading and writing the row: one decision and one replay are atomic steps, though the code takes no lock for them.
- Webhooks and events are never deleted, which the code never does either.
- `discover_profile`: its filtering of samples and its fallback to the statistical reading when the model fails.
- Proposal fields that are not lists or mappings, for which the code raises a type error.
- Stored profiles with null statuses: `spec_from_model` drops them, and the model's profiles have none.
- Gateway.Tables.Ingest: one number stands for a webhook's row and its dispatch is one step with the row; the two uniqueness constraints, the interleaved insert and the lost dispatch are in `Intake`.
- A default page size of zero, which the code does not check either: such a page links to itself.
- ProfileCache.ServedWasTrueRecently: the bound includes the time between a reader's fetch and its store, which the code does not limit; for reads nobody interrupts it is 60 seconds, `ProfileCache.UninterruptedReadsAreRecent`.

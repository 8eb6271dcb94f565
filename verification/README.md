# Contract review in Dafny

A model of the contract review engine and proofs of what it promises: the review
lifecycle with its audit gate and replay, the revision store, the money parser, rule
applicability, parallel model calls, retrieval, clause structure and the rule engine.

## What is modelled

- **Review lifecycle** (`ReviewModel`, `VersionImpacts`, `RunLedger`, `ReviewActions`,
  `AuditKeeping`, `ComparisonGate`, `Replay`, `Reattaching`, `ReplayTheorem`,
  `ReplayEvidence`, `ReplayNormalForm`, `RevisionBuilding`, `ComparisonBuilding`,
  `BuiltHistories`, `FailingHistories`, `Fingerprints`, and what they mean: `AuditMeaning`,
  `RunStages`, `Judging`, `ImpactMeaning`, `Attaching`, `BuiltParts`). A review result goes
  through a guarded state machine and then takes human actions: comparisons, revision sets,
  decisions, a final event. Every action keeps the audit. The replay redoes all attachments,
  then all decisions, then the final event, and must reach the same fingerprint. The
  fingerprint is symbolic: the hash of the canonical content, injective by construction. The
  theorems hold for comparisons and revision sets of any kind; what the builders make of a
  result is modelled beside them, and `FailingHistories` holds one concrete review with the
  histories and comparisons that fail.
- **Revision store** (`RevisionNames`, `RevisionStore`, `AuditStore`, `StampsAndNames`).
  Many clients append under one lock, readers take none, and the clock is arbitrary. The
  protocol is a transition system; the class beside it is the sequential store, and one
  append is shown to be five protocol steps.
- **Money** (`DecimalDigits`, `Money`, `ChineseNumerals`, `MoneyRoundTrip`, `ArabicAmounts`,
  `MoneyForms`). The parser with its loop, the 28-digit decimal arithmetic, and a printer of
  canonical Chinese numerals in any glyph style.
- **Applicability** (`Applicability`, `Finality`, `Verdicts`). Three-valued conditions,
  exceptions, aliases, what it means to fill in missing facts, and when a verdict is final.
- **Parallel model calls** (`RiskChunks`, `TitleIndex`, `RiskReview`, `ReportContents`,
  `SemanticIsolation`, `IsolatedReview`). Serial and parallel collection as loops over
  outcomes in any completion order; `RiskReview` goes from the rules through chunks, calls
  and validation to the report.
- **Retrieval** (`Collecting`, `Retrieval`, `Reranking`, `Relevance`). Scores are real
  numbers; the inverse document frequency is an arbitrary function of its two counts. The
  second stage measures a chunk by coverage and proximity of the query's anchors.
- **Clause structure** (`ClauseBuilding`, `ClauseBinding`, `ClauseRelations`,
  `ClauseForest`, `ClauseContents`, `RelationMeaning`), **case folding** (`CaseFold`) and
  **field keys** (`FieldKeys`).
- **Evidence gate and rule engine** (`EvidenceGate`, `GateDecisions`, `RuleCheckers`,
  `CheckerVerdicts`, `RuleEngine`, `EngineFindings`). All nineteen registered checkers, with
  pattern matches in texts as inputs.

Code that the source writes as loops over variables or fields is written as methods and
classes here and proved against a specification function; the theorems are about that
function. What each such function means is then stated once more without it, in the terms
of the records it reads: by quantifiers over their fields, with constants and characters
written out. `Ordering` holds the stable sort and other facts on sequences. Rows that say
corollary follow at once from the results before them and are listed for the reader.

## What the proofs found

- A replay raises for exactly two kinds of history (`ReplaySucceedsIff`): a revision set was
  attached after a decision or the final event, because the base fingerprint then differs;
  or a change cited evidence when it was attached, because the replay gives it new evidence.
  `RevisionAfterDecision` and `CitingComparison` are one history of each kind. Built
  comparisons never cite evidence, so with the builders only the first kind is left
  (`BuiltHistoryReplays`).
- Attaching a comparison can still be rejected by the second audit, for exactly three
  visible reasons (`SecondAuditIff`): a file name that disagrees with the last document of
  its hash, a change without any text, a pending change called `summary`. `SharedBytes`,
  `TextlessChange` and `ChangeCalledSummary` are one comparison for each.
- Decisions cannot be taken back and one that defers blocks the final event, so a finding
  that was deferred once leaves its review open for good (`DeferredForGood`).
- Chinese digits without units overwrite each other: of a row of digits only the last one
  counts (`OnlyTheLastDigit`), so one, two and three in a row are three yuan
  (`DigitsOverwritten`).
- A revision stamped at or beyond 10^19 is committed but no reader considers it
  (`CommitVisibleIff`), so the next conditional append does not notice it
  (`CommitReplacesIff`) and an update can be lost (`LostUpdateAtTheLimit`).
- An Arabic amount in units of ten thousand with more than 24 digits can be off by more
  than half a fen (`HalfFenMissed`); stacked units such as wan yi are added
  (`CompoundUnits`).
- A rule verdict can be overturned by filling in facts when an undecided exception was
  passed over (`SkipByLaterException`, `SkipByFailingBase`, `DisagreeingExceptions`).
  `FinalIff` gives the boundary and `FinalIsDecidable` a finite test for it.
- A tax rate that does not read as a number passes (`TaxRatePassesIff`,
  `UnreadableRatePasses`). Extraction gives every rate it finds a number
  (`src/contract_review/facts.py`, lines 68 to 118), so such a rate only comes from a caller
  of the engine that supplies its own facts.
- A classification finding is automatic whenever there is a contract type. It keeps to the
  rule for automatic findings if and only if that fact is confident and an accepted
  candidate of the rule backs it (`ClassificationIff`); `ClassificationSkipsTheGate` is an
  accepted input without either.
- An event whose id another subject already uses raises an uncaught error
  (`EventStore.Append`).
- When the second call of a risk chunk fails, a usable first answer is lost
  (`FullerAnswerKept`); when two semantic tasks raise errors outside the collected kinds,
  which one is raised depends on the completion order (`ConfluentIff`). With collected errors
  the serial review can fall back to the baseline where the parallel one raises
  (`FallbackDiffersIff`).

## Model

| member | source | states |
|---|---|---|
| RunLedger.RunsAreBounded | src/contract_review/run.py:28-48 | a run takes at most eight advances; every further allowed advance climbs in rank, so terminal states allow none |
| RunLedger.EveryRunIsAuditable | src/contract_review/run.py:51-161 | every run built by creation and allowed advances, with fresh event ids and a clock that does not go back, passes the ledger audit |
| RunLedger.LedgerGrows | src/contract_review/run.py:120-161 | an allowed advance succeeds, keeps the ledger valid and only appends its own event |
| RunLedger.EventsOfRun | src/contract_review/run.py:51-161 | the events of a run are its creation followed by exactly one event per advance, in order |
| RunLedger.CheckLedger | src/contract_review/audit.py:1596-1629 | the one-pass check of the audit decides exactly: unique events, one subject, chained stages, times in order, the last stage is the status, finish time only in terminal states |
| RunLedger.EventStore.Append | src/contract_review/event_store.py:47-60 | a new event is appended to its subject only; a known id changes nothing and is dropped, refused or raises, each in exactly its own case |
| RunLedger.EventStore.Feed | src/contract_review/event_store.py:41-63 | however the events of a run are repeated, at once or later, the store lists exactly the run's ledger |
| RunStages.TransitionsIff | src/contract_review/run.py:28-48 | an open run may go to the next stage, from the rule check on also to any later one, and to failure; nothing else is allowed |
| RunStages.RunExistsIff | src/contract_review/run.py:51-161 | a run exists exactly when each of its moves is allowed after the one before it |
| RunStages.RunRecords | src/contract_review/run.py:51-161 | its events hold the creation and every move with all their details, and the finish time is that of the last move exactly in a final stage |
| RunStages.NoStageSkipped | src/contract_review/run.py:28-48 | a run that has not failed went through every stage up to the rule check, one after the other |
| RunStages.SubjectIs | src/contract_review/event_store.py:41-63 | events are filed together if and only if kind and id of their subjects agree |
| VersionImpacts.BuildVersionImpacts | src/contract_review/comparisons.py:453-653 | the loops over changes and rules compute one impact per linked rule from exactly the changes that concern it, and the retrigger list |
| VersionImpacts.ImpactsComplete | src/contract_review/comparisons.py:453-653 | the impacts cover exactly the change ids, and each impact's obligations lie in clauses touched by its own changes, with evidence of changes |
| VersionImpacts.ImpactsIdentified | src/contract_review/audit.py:938-1058 | impacts have distinct ids and rules, name known rules only, and the retrigger set is what the audit recomputes |
| VersionImpacts.RetriggerExpected | src/contract_review/audit.py:982-996 | the retrigger list has no repetition and as a set equals the one the audit expects |
| ImpactMeaning.PrecedenceIff | src/contract_review/comparisons.py:370-398 | base wins if and only if the hashes differ, both sides are the last documents of their hashes, both ids occur in the order of precedence and some occurrence of the base comes before all of the other; likewise for the three other answers |
| ImpactMeaning.ConcernsIff | src/contract_review/comparisons.py:482-531 | which change concerns which rule, by clause, finding and marker, and when it concerns no rule |
| ImpactMeaning.RisksAre | src/contract_review/comparisons.py:560-625 | each risk level is the judgement of its own kind for the rules of its checker, on the joined texts of exactly the changes that concern the rule, and demands a review for the others |
| ImpactMeaning.ImpactSays | src/contract_review/comparisons.py:453-653 | every field of an impact: rule, changes in order, obligations in touched clauses with their summaries, risks, precedence and evidence |
| Attaching.ImpactsAre | src/contract_review/comparisons.py:453-653 | a stored comparison has exactly one impact, with these fields, for each rule its changes concern, and one without a rule for the changes that concern none |
| ReviewActions.BindingIdempotent | src/contract_review/comparisons.py:417-450 | rebinding a bound change finds no new clause |
| ReviewActions.BindAllChanges | src/contract_review/comparisons.py:745-801 | the binding loop stops at the first error and otherwise collects every bound change and all new evidence |
| Attaching.BindableIff | src/contract_review/comparisons.py:417-801 | a change can be bound if and only if the clauses it names exist and either the evidence it cites is comparison evidence of the review or the id of its new evidence is free |
| ReviewActions.AttachVersionComparison | src/contract_review/comparisons.py:656-845 | both audit gates, all checks, binding and impacts, in the order of the code |
| Attaching.AttachComparisonIff | src/contract_review/comparisons.py:656-845 | on an audited review a comparison attaches if and only if it is of this run, its documents are here under their names, its id and change ids are new and distinct, its findings are known, every change has text and can be bound, and none is called summary |
| Attaching.AttachComparisonMakes | src/contract_review/comparisons.py:716-845 | what is appended, piece by piece: the comparison with its bound changes, one piece of evidence per change or the cited ones, its impacts and its place in the sequence; nothing else changes |
| ComparisonGate.SecondAuditIff | src/contract_review/comparisons.py:802-845 | on an audited result the audit after attaching passes if and only if file names match their documents, every change has text and no pending change is called summary |
| ComparisonGate.NewEvidenceFresh | src/contract_review/comparisons.py:716-801 | the new evidence ids are fresh and distinct exactly when no change id clashes with the summary |
| AuditKeeping.AuditExtends | src/contract_review/audit.py:91-540 | an audited result that only grows by sound parts stays audited: nothing sound before has to be checked again |
| AuditMeaning.AuditedIff | src/contract_review/audit.py:91-540 | a result passes its audit if and only if findings, evidence, comparisons, revision sets, attachments, events, decisions and report are sound, said of their own fields alone, and the fingerprint is that of the content |
| AuditMeaning.ComparisonSoundIff | src/contract_review/audit.py:938-1058 | what the audit demands of a comparison, its changes and its impacts, by quantifiers over documents, rules, clauses and evidence |
| AuditMeaning.OverallIs | src/contract_review/audit.py:1113-1123 | the overall status is the gravest one found: blocked, then undecided, then warned, then passed |
| AuditMeaning.CountsAre | src/contract_review/audit.py:462-470 | every status that occurs is counted as often as it occurs |
| AuditKeeping.DecisionKeepsAudit | src/contract_review/pipeline.py:2201-2264 | recording a decision keeps the whole audit although the function does not audit its output |
| AuditKeeping.FinalizeKeepsAudit | src/contract_review/pipeline.py:2267-2315 | finalizing keeps the whole audit, ledger and report included |
| Judging.FinalizeIff | src/contract_review/pipeline.py:2267-2315 | on an audited review finalizing succeeds if and only if the review is open, every finding that is blocked, warned or unknown has some decision with its id, and no decision defers; said of review fields alone |
| Judging.FinalizeMakes | src/contract_review/pipeline.py:2287-2315 | it adds one event that cites the evidence of all decisions, closes the run and withdraws the demand for a review |
| Judging.RecordDecisionIff | src/contract_review/pipeline.py:2201-2264 | a decision is recorded if and only if the review is open, the finding exists and is undecided, and the evidence is known and shared with the finding |
| Judging.RecordDecisionMakes | src/contract_review/pipeline.py:2230-2264 | it is appended with what it cites, and run and report list all decisions |
| Judging.NothingLeftOpen | src/contract_review/pipeline.py:2201-2315 | no history reaches a final review with a blocked, warned or unknown finding undecided or a decision deferred, and no finding is decided twice |
| Judging.DeferredForGood | src/contract_review/pipeline.py:2225-2285 | a history with a deferred decision never reaches a final review, whatever follows |
| AuditKeeping.RevisionGate | src/contract_review/revisions.py:136-181 | attaching a revision set succeeds if and only if it is bound to findings, clauses and evidence of this result |
| Attaching.AttachRevisionIff | src/contract_review/revisions.py:136-181 | on an audited review a revision set attaches if and only if its run, base fingerprint, id, findings, clauses and evidence fit, said of review fields alone |
| Attaching.AttachRevisionMakes | src/contract_review/revisions.py:160-181 | the set is appended as it is, listed by run and report and put last in the sequence |
| Replay.RunReplay | src/contract_review/pipeline.py:2139-2198 | the replay loops redo the attachments in their recorded order, then the decisions, then the final event, and demand the same fingerprint |
| Reattaching.ReattachAdded | src/contract_review/pipeline.py:2147-2170 | a stored comparison, stripped of its evidence and attached again to an alike review, comes out as the very same comparison |
| ReplayTheorem.HistoryReaches | src/contract_review/pipeline.py:2201-2315 | every action of every history keeps the audit, and status and decisions are exactly those of the judging actions |
| ReplayTheorem.AttachmentsReplayed | src/contract_review/pipeline.py:2147-2170 | replaying the attachments of any history succeeds if and only if revision sets came before judging, and then rebuilds an alike review |
| ReplayNormalForm.DecisionsReplayed | src/contract_review/pipeline.py:2171-2181 | all stored decisions can be recorded again on the rebuilt attachments, up to their own ids |
| ReplayNormalForm.ReplaySucceedsIff | src/contract_review/pipeline.py:2008-2198 | for every history, the replay succeeds with the same fingerprint if and only if no revision set was attached after a decision or the final event and no change cited evidence when it was attached |
| ReplayEvidence.HistoryBalances | src/contract_review/comparisons.py:716-801 | after any history the evidence falls short of one piece per comparison and change by exactly the number of changes that cited evidence |
| ReplayEvidence.ReplayCount | src/contract_review/pipeline.py:2139-2198 | a successful replay ends with one piece of evidence per stored comparison and change on top of the base |
| ReplayEvidence.ReplayNeedsPending | src/contract_review/pipeline.py:2147-2198 | no replay succeeds when some change cited evidence as it was attached |
| FailingHistories.BaseIsFresh | src/contract_review/audit.py:91-540 | a concrete review of one document, rule, finding and evidence, taken through the run to human review, passes the audit |
| FailingHistories.RevisionAfterDecision | src/contract_review/pipeline.py:2139-2198 | a concrete history, a decision and then a revision set, whose steps all succeed, in which nothing cites evidence, and whose replay raises |
| FailingHistories.CitingComparison | src/contract_review/pipeline.py:2139-2198 | a concrete history of two comparisons, the second citing evidence of the first, whose steps all succeed and whose replay raises |
| FailingHistories.TextlessChange | src/contract_review/comparisons.py:656-845 | a comparison with a change without text is rejected by the second audit on the concrete review |
| FailingHistories.ChangeCalledSummary | src/contract_review/comparisons.py:656-845 | so is one with a pending change called summary |
| FailingHistories.SharedBytes | src/contract_review/comparisons.py:656-845 | and so is an ordinary one when two documents of the package have the same hash under different file names |
| RevisionBuilding.BuildRevisionSet | src/contract_review/revisions.py:71-133 | the loop over the findings proposes one change for each finding with a listed status, or fails on an unaudited result or a finding without evidence |
| BuiltParts.RevisionSetIs | src/contract_review/revisions.py:71-133 | building succeeds if and only if the review passes its audit and every finding with a listed status has evidence; the changes are then one for each of these findings, in order |
| BuiltParts.ClauseIs | src/contract_review/revisions.py:23-37 | a proposal is about the first known clause the finding names, else the first clause that cites evidence of it, else none |
| RevisionBuilding.BuiltFits | src/contract_review/revisions.py:71-133 | a set built from a result is bound to its fingerprint, its findings, its clauses and its evidence |
| RevisionBuilding.BuiltAttachesIff | src/contract_review/revisions.py:71-181 | a built set attaches to the result it was built from if and only if its id is not taken there |
| RevisionBuilding.NotItsOwnBase | src/contract_review/revisions.py:59-181 | no revision set of a result has the fingerprint of that result as its base |
| RevisionBuilding.BuiltAlwaysAttaches | src/contract_review/revisions.py:71-181 | where all revision sets so far were built, what is built next always attaches |
| ComparisonBuilding.BuildVersionComparison | src/contract_review/comparisons.py:34-114 | the loops over the differences make one pending change each, or fail on a missing id or an unknown kind |
| BuiltParts.ComparisonIs | src/contract_review/comparisons.py:34-114 | building succeeds if and only if every difference has an id and a known kind; every field of the comparison and its changes |
| ComparisonBuilding.BuiltIsPending | src/contract_review/comparisons.py:34-114 | a built comparison cites no evidence, as the replay demands |
| ComparisonBuilding.BuiltPassesIff | src/contract_review/comparisons.py:34-114 | once its checks have passed, a built comparison attaches if and only if file names match their documents, every difference has text and none is called summary |
| BuiltHistories.NextSetAttaches | src/contract_review/revisions.py:71-181 | after every history whose revision sets were built, the next set that is built attaches |
| BuiltHistories.BuiltHistoryReplays | src/contract_review/pipeline.py:2008-2198 | a history of built comparisons and sets replays, with the same fingerprint, if and only if no set was attached after a decision or the final event |
| Fingerprints.ArchiveIff | src/contract_review/replay.py:162-247 | the nine record collections that no action touches count up to their order, and traces and facts without their time of creation |
| Fingerprints.FingerprintIff | src/contract_review/replay.py:120-299 | equal result fingerprints if and only if equal content up to the order of the sorted collections, wall-clock times, decision ids and stage events |
| Fingerprints.DecisionContentIff | src/contract_review/replay.py:25-41 | what of a decision counts: not its id or time, and its evidence only as a multiset |
| RevisionNames.NameRoundTrip | src/contract_review/store.py:111-119 | a revision time stamp reads back from its directory name if and only if it has at most nineteen digits |
| StampsAndNames.TimestampIff | src/contract_review/store.py:111-119 | exactly which names have a stamp: r- and nineteen digits, or revision- and digits up to the end or a hyphen, and which number it is |
| StampsAndNames.NextStampIff | src/contract_review/store.py:311-317 | the next stamp is the least positive number that the clock has reached and that is above all stamps in the directory |
| RevisionStore.EveryRunIsSafe | src/contract_review/store.py:252-287 | in every interleaving whose prior stamps and clock stay below the limit of the name format by more than the number of steps: at most one client past the lock, strictly increasing time stamps, no lost update, only audited results stored, no artifact ever changed |
| RevisionStore.ReadableRunIsSafe | src/contract_review/store.py:252-287 | the same for every interleaving whose stamps can be read back |
| RevisionStore.CommitReplacesIff | src/contract_review/store.py:268-320 | after a commit a conditional append is compared with the new artifact when its stamp is below the limit, and otherwise with exactly what it was compared with before |
| RevisionStore.LostUpdate | src/contract_review/store.py:252-320 | a run in which two appends that expect the base artifact both succeed once the clock has reached the limit |
| AuditStore.LostUpdateAtTheLimit | src/contract_review/store.py:311-320 | such a run of this store, with stamps 10^19 and 10^19 + 1 |
| RevisionStore.InvStep | src/contract_review/store.py:252-345 | every atomic step of every client keeps the store invariant, whatever the clock shows |
| RevisionStore.LatestIsCurrent | src/contract_review/store.py:420-434 | what a reader picks from the directory is the last commit |
| RevisionStore.LoadReturnsLastCommit | src/contract_review/store.py:357-434 | a load that lists at one moment and reads later returns the last commit as of the listing |
| RevisionStore.CommitVisibleIff | src/contract_review/store.py:311-320 | a committed revision is the newest one for readers if and only if its time stamp is below the limit of the name format |
| AuditStore.NamesKeepLaw | src/contract_review/store.py:111-119 | the store's own names satisfy the law that the interleaving theorems need |
| AuditStore.JsonAuditStore.LatestSource | src/contract_review/store.py:420-434 | one pass over the directory finds a revision with the greatest readable time stamp, or the base artifact when there is none |
| AuditStore.JsonAuditStore.ChooseStamp | src/contract_review/store.py:308-318 | the chosen time stamp exceeds every earlier one and is the clock or the least such |
| AuditStore.JsonAuditStore.Load | src/contract_review/store.py:357-434 | load returns the newest artifact, or an error when that one does not pass its own checks |
| AuditStore.JsonAuditStore.AppendRevision | src/contract_review/store.py:252-345 | a successful append adds exactly one artifact under a fresh, greatest time stamp to a matching store; a refused one changes nothing and has one of the listed reasons |
| AuditStore.AppendIsFiveSteps | src/contract_review/store.py:252-345 | one append is the five protocol steps in sequence |
| Money.ReadYuan | src/contract_review/facts.py:226-244 | the three-accumulator loop computes the scan of the numeral, or nothing when a character is no numeral |
| Money.ReadFraction | src/contract_review/facts.py:246-253 | jiao and fen are the digits directly before the first mark of each |
| Money.ParseMoneyValue | src/contract_review/facts.py:205-256 | the parser computes exactly the specified value, nothing, or an uncaught decimal error |
| MoneyForms.DigitGlyphs | src/contract_review/facts.py:128-153 | the characters of every digit, written out, and no others |
| MoneyForms.SmallGlyphs | src/contract_review/facts.py:154-154 | the characters for ten, hundred and thousand |
| MoneyForms.SectionGlyphs | src/contract_review/facts.py:155-155 | the characters for ten thousand and above |
| MoneyForms.OtherCharacters | src/contract_review/facts.py:128-155 | every other character has no meaning |
| MoneyForms.OneMoreGlyph | src/contract_review/facts.py:228-244 | what one more character makes of the amount read so far |
| MoneyForms.ChineseAmountIs | src/contract_review/facts.py:244-256 | the amount of a Chinese text is its numeral in yuan plus the digits before the marks, and raises from 10^28 fen on |
| MoneyForms.NothingIff | src/contract_review/facts.py:205-227 | there is no amount exactly for an empty text, a foreign character or a lone mark |
| MoneyForms.OnlyTheLastDigit | src/contract_review/facts.py:228-244 | of digits without units only the last one counts |
| MoneyForms.DigitsOverwritten | src/contract_review/facts.py:228-244 | the text of one, two and three in Chinese digits is three yuan |
| MoneyForms.SeparatorsIgnored | src/contract_review/facts.py:208-209 | blanks, commas and closing marks anywhere, and the currency in front, make no difference |
| MoneyForms.LiteralMeans | src/contract_review/facts.py:212-220 | the amount of every Arabic literal: its exact value rounded to the nearest fen, halves upwards, up to 28 digits |
| MoneyForms.WholeAmounts | src/contract_review/facts.py:212-220 | for every run of digits below 10^22: as many yuan as they say, and ten thousand times as many with that unit, exactly |
| MoneyForms.OnlyLiterals | src/contract_review/facts.py:212-212 | the literals are exactly digits with an optional fraction and unit |
| MoneyForms.ContextRoundMeans | src/contract_review/facts.py:212-220 | rounding to 28 digits gives the nearest number, and the even one of two |
| ChineseNumerals.ScanSection | src/contract_review/facts.py:229-243 | a four-digit section and its unit add exactly their value, with or without zero fillers |
| ChineseNumerals.NumeralReads | src/contract_review/facts.py:229-243 | the canonical numeral of every number below 10^16, in any glyph style, reads back as that number |
| MoneyRoundTrip.ChineseRoundTrip | src/contract_review/facts.py:205-256 | every amount below 10^16 yuan, written with either yuan mark, with or without currency and closing mark, parses back to exactly that many fen |
| MoneyForms.StylesRoundTrip | src/contract_review/facts.py:124-256 | the round trip for the plain and the financial style, written out in characters |
| ArabicAmounts.ArabicRoundTrip | src/contract_review/facts.py:205-220 | the decimal form of every amount of at most 28 digits parses back exactly |
| ArabicAmounts.FormsAgree | src/contract_review/facts.py:205-256 | the Chinese and the Arabic form of an amount mean the same |
| ArabicAmounts.HalfFenIff | src/contract_review/facts.py:212-220 | an Arabic amount is within half a fen of its exact value if and only if rounding to 28 digits did not lift it onto a half-fen tie |
| ArabicAmounts.ShortAmountsAreExact | src/contract_review/facts.py:212-220 | amounts of at most 24 digits before scaling are always within half a fen |
| ArabicAmounts.HalfFenMissed | src/contract_review/facts.py:205-220 | the text 0.0000004 followed by twenty-eight nines and the unit of ten thousand parses to one fen, more than half a fen off |
| ArabicAmounts.CompoundUnits | src/contract_review/facts.py:238-243 | a text with stacked section units, such as wan yi before the yuan mark, parses to their sum and not to the product |
| Applicability.MonotoneIff | src/contract_review/rules.py:69-131 | answers survive every way of filling in facts if and only if the condition does not depend on naming the unknown party or the unknown document kind |
| Applicability.Overturned | src/contract_review/rules.py:75-131 | for every other condition, a context and a way of filling it in that turn a true answer into a false one |
| Applicability.ResolveStructured | src/contract_review/rules.py:134-156 | exceptions in order, then the base condition, unknown whenever an exception is still open |
| Verdicts.MatchIff | src/contract_review/rules.py:69-131 | when a condition holds, fails or is open, by its six tests and the facts of the context |
| Verdicts.ResolveIff | src/contract_review/rules.py:134-156 | the verdict in every case; in particular, when no exception holds and the base condition does it is the rule's own if every exception fails, and unknown otherwise |
| Verdicts.BaseVerdictIsFinal | src/contract_review/rules.py:134-156 | for conditions whose answers are stable, a verdict given by the base condition holding is final, with no premise on passed-over exceptions |
| Applicability.SettledVerdictIsFinal | src/contract_review/rules.py:134-156 | a verdict reached with no undecided exception before it never changes when facts are filled in |
| Applicability.CanHoldIff | src/contract_review/rules.py:69-131 | a condition can still come to hold exactly when none of its tests already fails |
| Finality.FinalIff | src/contract_review/rules.py:134-156 | a verdict is final if and only if every earlier exception that can become the first to hold gives the same verdict |
| Finality.FinalStaysFinal | src/contract_review/rules.py:134-156 | a final verdict stays the same and final however facts are filled in |
| Finality.AgreementIsFinal | src/contract_review/rules.py:141-156 | when all passed-over exceptions without a failing test agree with the verdict, it is final |
| Finality.DisagreementOverturns | src/contract_review/rules.py:141-156 | when the first of them disagrees, facts can be filled in that give its verdict instead |
| Finality.CanOvertakeIff | src/contract_review/rules.py:69-156 | whether an exception can become the first to hold is decided by finitely many contexts built from the values the rule names |
| Finality.FinalIsDecidable | src/contract_review/rules.py:69-156 | finality of any rule in any context is decided by finitely many contexts |
| Finality.DisagreeingExceptions | src/contract_review/rules.py:141-151 | passed-over exceptions that disagree with each other: the first agrees with the verdict, the second overturns it |
| Finality.MaskedException | src/contract_review/rules.py:141-151 | a disagreeing exception that cannot overturn because an earlier one holds whenever it does |
| Finality.SkipByLaterException | src/contract_review/rules.py:141-146 | a concrete verdict by a later exception that an earlier undecided one overturns |
| Finality.SkipByFailingBase | src/contract_review/rules.py:147-151 | a concrete not-applicable verdict that an undecided exception overturns |
| Applicability.RuleVerdictIsFinal | src/contract_review/rules.py:348-370 | the same for a whole rule, through contract types and their aliases |
| Verdicts.ResolveRuleIff | src/contract_review/rules.py:40-66 | which specification decides a rule for a contract type and its registered names |
| RiskChunks.ChunksPartition | src/contract_review/pipeline.py:1747-1762 | the chunks concatenate to the rule list, have 1 to 15 rules, and all but the last are full |
| RiskChunks.AnalyzeChunk | src/contract_review/pipeline.py:1765-1792 | at most two calls, a second only for a poorly covered first answer |
| RiskChunks.FullerAnswerKept | src/contract_review/pipeline.py:1765-1792 | the fuller of the answers is kept; a failing second call loses a usable first answer |
| ReportContents.AnalysisMeans | src/contract_review/pipeline.py:1765-1792 | when a second call is made, which answer is kept, when the chunk fails and what is lost, by counts of valid items |
| ReportContents.OutcomeIs | src/contract_review/pipeline.py:1765-1792 | the same for every chunk of an analysis, by its first and its second call |
| RiskChunks.RunSerially | src/contract_review/pipeline.py:1814-1829 | the serial loop gives the responses, failures and dropped count of the chunks, or the error of the first defective chunk |
| RiskChunks.RunInParallel | src/contract_review/pipeline.py:1831-1865 | collecting in any completion order gives the same |
| RiskChunks.RunAndRetry | src/contract_review/pipeline.py:1675-1694 | a parallel run with starved chunks, retried serially, gives the recovered outcome |
| RiskChunks.RecoveredRefinesSerial | src/contract_review/pipeline.py:1675-1694 | corollary of RunAndRetry: starved and retried, the run keeps the same responses and dropped count as the serial run and fails for the same chunks |
| RiskChunks.DefectsAreRaised | src/contract_review/pipeline.py:1675-1694 | an unexpected error is raised exactly when the serial run raises one, and it is another one only when the first defective chunk was starved and a later one was not |
| RiskChunks.ReportIsSerial | src/contract_review/pipeline.py:1696-1744 | corollary: merged items, contract type, dropped count and failed chunks do not depend on scheduling |
| ReportContents.ReportKind | src/contract_review/pipeline.py:1675-1744 | a report, a degraded analysis or an error, by the outcomes of the chunks |
| ReportContents.ReportHolds | src/contract_review/pipeline.py:1675-1744 | titles and rules of the report's items are, in order, those of the kept items of all answered chunks one after the other, and the contract type is that of the first of them that names one |
| RiskChunks.SingleChoiceSettles | src/contract_review/risk_analysis.py:397-468 | normalising twice changes no level: all contract types but the chosen one are not applicable and the choice does not move |
| ReportContents.SelectedIff | src/contract_review/risk_analysis.py:449-468 | which contract type is chosen: the declared one when it is a name, else the only passed candidate |
| ReportContents.ChoiceSettles | src/contract_review/risk_analysis.py:397-446 | the level and reason of every item after the choice |
| RiskChunks.NothingStarved | src/contract_review/pipeline.py:1675-1694 | without starved chunks the parallel run with its retry is the serial run, errors included |
| TitleIndex.IndexTitles | src/contract_review/risk_analysis.py:348-372 | a title is indexed exactly when one rule alone bears it |
| RiskReview.ValidateItems | src/contract_review/risk_analysis.py:303-345 | the validating loop keeps the usable items and names each one's rule through the title index |
| ReportContents.ItemsAre | src/contract_review/risk_analysis.py:285-340 | of the first two hundred drafts exactly those with a known level, a title and, when they report a problem, evidence that may be cited are kept, in order, with title, rule, level and reason |
| ReportContents.ReplyIs | src/contract_review/risk_analysis.py:257-290 | a call answers if and only if it returns something that echoes the request; the answer carries every draft as written |
| ReportContents.CategoryIs | src/contract_review/risk_analysis.py:297-301 | which rule ids are candidates for the contract type: those whose last rule is of that category |
| RiskReview.ByTitleIff | src/contract_review/risk_analysis.py:348-394 | an item without a known rule id is about the rule that alone bears its title in the chunk |
| ReportContents.AboutIff | src/contract_review/risk_analysis.py:348-394 | which rule an item is about: the one it names, else the one that alone bears its title |
| RiskReview.CutRules | src/contract_review/pipeline.py:1747-1762 | the slicing loop cuts the rules into the chunks |
| RiskReview.ReviewRules | src/contract_review/pipeline.py:1627-1744 | from rules to report: for any schedule and any starved chunks the report is the serial one, and an error is raised exactly when the serial run raises one |
| ReportContents.DraftsAppear | src/contract_review/pipeline.py:1627-1744 | every usable draft of a kept answer appears in the report with its title and its rule |
| RiskReview.ReportNamesRules | src/contract_review/pipeline.py:1696-1744 | every item of a report that names a rule names one of the rules analysed |
| RiskReview.ReportSettles | src/contract_review/pipeline.py:1703-1713 | in the report all candidate contract types but the chosen one are not applicable, and choosing again changes no level |
| RiskReview.OneCallDecides | src/contract_review/pipeline.py:1765-1792 | for a client that answers the same request the same way the first call decides a chunk |
| SemanticIsolation.Validate | src/contract_review/semantic.py:555-619 | a response to an isolated rule is accepted exactly when it holds one item of that rule with evidence of its context |
| IsolatedReview.CheckedIff | src/contract_review/semantic.py:555-619 | exactly one item of the rule, citing only known and allowed evidence other than the rule's source; which defect may degrade to the baseline |
| SemanticIsolation.Combine | src/contract_review/semantic.py:361-403 | responses combine exactly when every requested rule has one item of its own, in request order |
| SemanticIsolation.ReviewSerially | src/contract_review/pipeline.py:1175-1187 | the serial review combines all responses or fails with the first error in request order |
| SemanticIsolation.ReviewInParallel | src/contract_review/pipeline.py:1189-1235 | in any completion order: the combined response when all tasks succeed, else the error of the least rule that may not degrade, else of the least; nothing partial is merged |
| IsolatedReview.SuccessHolds | src/contract_review/pipeline.py:1175-1235 | the reviewed batch holds the one item of every response in request order, under the name of the single response or the digest of all |
| IsolatedReview.RaisedIs | src/contract_review/pipeline.py:1224-1232 | the error raised is that of the least rule refused, or of the least failing rule when all may degrade |
| SemanticIsolation.SuccessIsUnique | src/contract_review/pipeline.py:1175-1235 | serial and parallel success give the same batch |
| SemanticIsolation.ParallelDegradesIff | src/contract_review/pipeline.py:1224-1232 | the parallel review degrades to the baseline if and only if every failing task may degrade, and then the serial one degrades too |
| SemanticIsolation.ChosenIsUnique | src/contract_review/pipeline.py:1224-1232 | the failures determine the error that the parallel review raises |
| SemanticIsolation.SameErrorIff | src/contract_review/pipeline.py:1175-1232 | both schedules raise the same error if and only if the first failing task in request order comes before all others in the collector's order |
| SemanticIsolation.FallbackDiffersIff | src/contract_review/pipeline.py:1175-1232 | one schedule falls back and the other raises if and only if the first failing task may degrade and another failing one may not; it is then the serial one that falls back |
| SemanticIsolation.FallbackDiffers | src/contract_review/pipeline.py:1175-1232 | two rules for which the serial review falls back and the parallel one raises |
| SemanticIsolation.ConfluentIff | src/contract_review/pipeline.py:1207-1222 | errors outside the three collected kinds make the outcome depend on the completion order as soon as two tasks have one |
| Retrieval.Retrieve | src/contract_review/knowledge.py:419-608 | the filter, scoring, threshold, sorting and truncation loops compute the specified hits |
| Relevance.MatchesIff | src/contract_review/knowledge.py:150-204 | a chunk passes the filter if and only if every nonempty list admits it; a list of documents shuts out all other contract chunks and no rule chunk |
| Relevance.ScoreMeans | src/contract_review/knowledge.py:498-542 | what a score is made of: frequency and rarity of matched terms, and the boosts with their amounts |
| Relevance.TermScoreMeans | src/contract_review/knowledge.py:501-523 | the share of one term, with its two constants |
| Relevance.HitIff | src/contract_review/knowledge.py:473-584 | which chunk becomes a hit, with which score and which anchors |
| Relevance.RankedIff | src/contract_review/knowledge.py:585-608 | exactly the scored chunks within 55 percent of the best contract score, or exempt, are ranked |
| Retrieval.RetrievalIsCanonical | src/contract_review/knowledge.py:454-608 | with unique chunk ids, any permutation of the corpus gives identical hits, scores and ranks |
| Retrieval.HitsAreJustified | src/contract_review/knowledge.py:454-603 | every hit passes the filter and the anchor gate, matches something, and meets both thresholds or is exempt |
| Retrieval.BestContractHitSurvives | src/contract_review/knowledge.py:585-603 | the relative threshold never removes a best contract hit |
| Retrieval.TopHits | src/contract_review/knowledge.py:604-608 | the hits are exactly the first top_k of the surviving ones under the total order |
| Retrieval.BestContractHitIsFirst | src/contract_review/knowledge.py:585-608 | if any contract hit is returned, so is a best one |
| Retrieval.HitsHaveUniqueIds | src/contract_review/knowledge.py:454-608 | on a corpus without repeated ids no two hits share an id |
| Reranking.MeasureProximity | src/contract_review/reranking.py:104-130 | neighbouring positions only are compared |
| Reranking.ProximityIsLeastDistance | src/contract_review/reranking.py:104-130 | the proximity comes from the least distance of any two anchor positions and lies in [0, 1] |
| Reranking.CoverageMeans | src/contract_review/reranking.py:79-92 | coverage lies in [0, 1], is one exactly when all anchors match and missing exactly when there is none |
| Reranking.MeanScoreInRange | src/contract_review/reranking.py:158-170 | the weighted mean of the present features lies in [0, 1] |
| Relevance.WeightsAre | src/contract_review/reranking.py:23-31 | the weights: 20 first rank, 25 exact anchors, 30 required facts, 15 constraints, 10 proximity, over those present |
| Relevance.RanksFall | src/contract_review/reranking.py:133-155 | the first hit of the pool has rank score one, the last zero, evenly between |
| Relevance.GapsMean | src/contract_review/reranking.py:104-130 | proximity falls with the least distance and is zero from eighty characters on |
| Reranking.CoverageInMeans | src/contract_review/reranking.py:79-101 | in a chunk, coverage is one exactly when every anchor has a spelling of its form that is found there |
| Relevance.CoverageIs | src/contract_review/reranking.py:79-92 | coverage is matched length over whole length of the distinct, nonempty anchors |
| Relevance.ConstraintIs | src/contract_review/reranking.py:95-101 | constraints are the mean of numbers and negations, or the one there is |
| Reranking.EvidenceInRange | src/contract_review/reranking.py:133-170 | every feature that the query has in a chunk lies in [0, 1] |
| Reranking.Rerank | src/contract_review/reranking.py:184-242 | the reranking loop measures each chunk and computes the specified result, or an error when a hit has no chunk |
| Reranking.RerankedIsTop | src/contract_review/reranking.py:199-242 | for every query on a corpus without repeated ids the two stages succeed and return exactly the first top_k of the pool under the total order, with scores in [0, 1], and fewer only when retrieval finds fewer |
| Reranking.PoolSizeBounds | src/contract_review/reranking.py:173-181 | the pool has room for the result, is bounded and monotone |
| Relevance.PoolIs | src/contract_review/reranking.py:173-181 | three times the result, at most fifty, never less than the result |
| Reranking.TwoStagesAreCanonical | src/contract_review/reranking.py:184-242 | corollary: retrieval, chunk index and reranking together are a function of the set of chunks |
| ClauseBuilding.GroupChunks | src/contract_review/contract_domain.py:143-160 | the grouping loop computes the groups |
| ClauseBuilding.GroupsPartition | src/contract_review/contract_domain.py:143-160 | the groups concatenate to the sorted chunks; only heads start clauses or are table cells, and only numbered clauses are continued |
| ClauseBuilding.GroupingIsUnique | src/contract_review/contract_domain.py:143-160 | there is no other such partition |
| ClauseContents.GroupsAre | src/contract_review/contract_domain.py:97-160 | which chunk starts a group and which continues one, by number, heading and table |
| ClauseContents.DocumentChunksAre | src/contract_review/contract_domain.py:108-142 | the chunks of a document are exactly its contract chunks with text, by page, position and id |
| ClauseBuilding.BuildContractClauses | src/contract_review/contract_domain.py:117-212 | all documents, groups and evidence in the order of the code, or an error |
| ClauseContents.ClauseIs | src/contract_review/contract_domain.py:162-212 | when a group becomes a clause, and its chunks, evidence and kind |
| ClauseContents.ClausesAre | src/contract_review/contract_domain.py:117-212 | the clauses by document and number, one for each group of each document |
| ClauseBinding.BuildOkIff | src/contract_review/contract_domain.py:162-181 | building fails if and only if an eligible chunk cites unknown evidence or evidence of another document |
| ClauseBinding.EveryChunkInOneClause | src/contract_review/contract_domain.py:117-212 | the clauses hold the eligible chunks and nothing else, each exactly once, and have unique ids |
| ClauseBinding.IndexChunks | src/contract_review/contract_domain.py:225-233 | the index maps each chunk to its clause, or names a chunk claimed by two |
| ClauseBinding.BindClauses | src/contract_review/contract_domain.py:215-245 | binding fails only for a chunk in two clauses and otherwise writes each chunk's clause |
| ClauseContents.BoundChunks | src/contract_review/contract_domain.py:215-245 | every chunk gets the id of the one clause that lists it, or none, and nothing else of it changes |
| ClauseBinding.BindingPassesAudit | src/contract_review/audit.py:1454-1483 | binding built clauses never fails and the audit of clauses and chunks accepts the result |
| ClauseRelations.IndexNumbers | src/contract_review/clause_relations.py:68-76 | the index lists the bearers of each number in order |
| ClauseRelations.RelationList.Append | src/contract_review/clause_relations.py:89-95 | the list holds the first relation of every id ever appended |
| ClauseRelations.BuildClauseRelations | src/contract_review/clause_relations.py:236-247 | parents, definitions and references, in this order, each id once |
| ClauseForest.SameIdSameRelation | src/contract_review/clause_relations.py:98-233 | with unique clause ids an id determines its relation, so deduplication drops nothing |
| RelationMeaning.ParentIff | src/contract_review/clause_relations.py:79-134 | the parent edges are exactly the pairs of a clause under a plain number of two components or more and the only clause of its document under that number without the last one |
| RelationMeaning.DefinitionIff | src/contract_review/clause_relations.py:137-170 | the definitions are exactly the terms of the clauses |
| RelationMeaning.ReferenceIff | src/contract_review/clause_relations.py:182-233 | the references are exactly the mentioned numbers other than the clause's own heading, resolved to the only clause of the document under the number |
| ClauseForest.OneParent | src/contract_review/clause_relations.py:98-134 | a clause has at most one incoming parent edge |
| ClauseForest.PathsDescend | src/contract_review/clause_relations.py:79-134 | along parent edges clause numbers get one component longer at every step |
| ClauseForest.NoCycles | src/contract_review/clause_relations.py:79-134 | parent edges have no cycle |
| ClauseForest.ReferencesResolveIff | src/contract_review/clause_relations.py:182-233 | a mentioned number is recorded unless it means the clause itself, and is resolved if and only if exactly one clause of the document bears it |
| ClauseForest.RelationsPassAudit | src/contract_review/audit.py:1485-1530 | every built list has unique ids and passes the audit of relations |
| CaseFold.FoldText | src/contract_review/parser.py:116-122 | every folded position is recorded with the character that produced it |
| CaseFold.CasefoldSpan | src/contract_review/parser.py:113-128 | the least span around the first occurrence of the folded query; nothing exactly when the query folds to nothing or does not occur |
| CaseFold.TightIff | src/contract_review/parser.py:113-128 | the least span starts with the character that produced the first folded position and ends with the one that produced the last |
| CaseFold.FindSpan | src/contract_review/parser.py:671-675 | after the containment test the span always exists, so the second guard never fires |
| FieldKeys.Pigeonhole | src/contract_review/elements.py:441-448 | taken names cannot outnumber the keys in use |
| FieldKeys.FirstUnused | src/contract_review/elements.py:441-448 | the suffix loop stops within one step per key in use at the first unused name |
| FieldKeys.GenerateKey | src/contract_review/elements.py:430-449 | the generated key is unused and derived from the slug or a field number |
| FieldKeys.KeyIs | src/contract_review/elements.py:430-449 | which key it is: the start of the slug, with the lowest free number when taken, or a field number above the count of keys |
| FieldKeys.Catalog.Append | src/contract_review/elements.py:378-404 | creating appends one field for an unused key and otherwise changes nothing |
| FieldKeys.Catalog.Remove | src/contract_review/elements.py:405-415 | deleting removes the first field with the key |
| FieldKeys.Catalog.Change | src/contract_review/elements.py:405-424 | changing replaces the definition of the first field with the key and nothing else |
| FieldKeys.WritesMean | src/contract_review/elements.py:378-427 | what creating, deleting and changing do to the first field with the key, and exactly when they fail |
| FieldKeys.CreateThenDelete | src/contract_review/elements.py:378-427 | creating keeps keys unique, and deleting the created key restores the list |
| FieldKeys.OtherWritesKeepKeys | src/contract_review/elements.py:405-427 | deleting keeps keys unique and frees the key; changing keeps all keys |
| EvidenceGate.AssessCandidates | src/contract_review/evidence.py:38-106 | one assessment per candidate in order, or an error when one belongs to another query |
| GateDecisions.AssessmentsMean | src/contract_review/evidence.py:38-106 | what every assessment says of its candidate, and that all must be of the query's rule and version |
| EvidenceGate.GateAcceptsEligible | src/contract_review/evidence.py:38-173 | when a run assesses all its candidates, the gate accepts for every query exactly the contract candidates that match its fact anchors, or its exact anchors when it has none |
| EvidenceGate.IndexAssessments | src/contract_review/evidence.py:109-127 | an index, or an error exactly when an assessment id or a candidate repeats |
| EvidenceGate.AcceptedCandidates | src/contract_review/evidence.py:130-173 | the candidates accepted by the deterministic gate, by rank, or an error when assessments do not fit |
| EvidenceGate.AcceptedMembers | src/contract_review/evidence.py:130-173 | accepted are exactly the contract candidates with a deterministic accepting assessment |
| GateDecisions.AcceptedIff | src/contract_review/evidence.py:109-173 | accepted candidates are determined if and only if no id is assessed twice and every candidate has an assessment that agrees with it in every field |
| GateDecisions.AcceptedAre | src/contract_review/evidence.py:137-173 | by rank and id, exactly the contract candidates with a deterministic accepting assessment, each as often as retrieved |
| EvidenceGate.PromoteAssessments | src/contract_review/evidence.py:201-249 | exactly the cited contract candidates that the gate did not accept become semantic evidence |
| GateDecisions.PromotedIff | src/contract_review/evidence.py:201-232 | promotion succeeds if and only if no id is assessed twice and every cited candidate is assessed |
| GateDecisions.PromotedAre | src/contract_review/evidence.py:213-249 | exactly the assessments of cited candidates outside the gate become semantic and accepting, unchanged otherwise |
| EvidenceGate.PromotionIsIdempotent | src/contract_review/evidence.py:201-249 | promoting twice changes nothing more |
| EvidenceGate.PromotionKeepsAccepted | src/contract_review/evidence.py:201-249 | promotion leaves the deterministically accepted candidates unchanged |
| RuleCheckers.BuildResult | src/contract_review/rule_checkers.py:187-261 | a verdict drawn from facts of low confidence is withdrawn |
| RuleCheckers.AutomaticIsConfident | src/contract_review/rule_checkers.py:187-261 | an automatic result has sufficient quality, is not undetermined and rests on facts of known confidence at least one half |
| CheckerVerdicts.ResultIs | src/contract_review/rule_checkers.py:187-261 | evidence, facts, confidence, quality and status of every result; a decision on a fact of confidence below one half is withdrawn, and no other |
| CheckerVerdicts.MissingMeans | src/contract_review/rule_checkers.py:775-853 | what a missing term comes to under each policy, with and without facts and parse |
| CheckerVerdicts.OpenIsPoor | src/contract_review/rule_checkers.py:264-853 | what any checker leaves open is not automatic, and of poor quality outside the stated cases |
| RuleCheckers.SumPassesIff | src/contract_review/rule_checkers.py:517-557 | a total passes if and only if there are amounts and one contract amount, they add up, and all facts used are confident |
| RuleCheckers.TaxRatePassesIff | src/contract_review/rule_checkers.py:395-426 | a tax rate passes if and only if some is found, a number is expected, every rate that reads as a number is the expected one and all facts found are confident |
| CheckerVerdicts.AmountCaseIff | src/contract_review/rule_checkers.py:327-358 | amounts in figures and in words: passes, warns or is withdrawn, by the facts |
| CheckerVerdicts.DetailTotalIff | src/contract_review/rule_checkers.py:361-392 | details against their total |
| CheckerVerdicts.PaymentTotalIff | src/contract_review/rule_checkers.py:517-559 | payments against the contract amount |
| CheckerVerdicts.InvoiceTotalIff | src/contract_review/rule_checkers.py:517-567 | invoices against the contract amount |
| CheckerVerdicts.TaxRateIff | src/contract_review/rule_checkers.py:395-426 | readable rates against the expected one |
| CheckerVerdicts.PaymentRatioIff | src/contract_review/rule_checkers.py:570-592 | ratios pass as long as they do not exceed the whole by more than a millionth, and warn otherwise |
| CheckerVerdicts.TaxAmountIff | src/contract_review/rule_checkers.py:462-514 | taxes equal base times rate to the fen |
| CheckerVerdicts.UntaxedIff | src/contract_review/rule_checkers.py:429-459 | taxed and untaxed amounts by their excerpts |
| CheckerVerdicts.InvoicePresentIff | src/contract_review/rule_checkers.py:614-647 | type and amount of the invoice |
| CheckerVerdicts.GuaranteeIff | src/contract_review/rule_checkers.py:595-611 | a guarantee is warned about and never passed |
| CheckerVerdicts.AttachmentsIff | src/contract_review/rule_checkers.py:650-718 | required attachments without a document |
| CheckerVerdicts.PaymentTermsIff | src/contract_review/rule_checkers.py:862-908 | payment terms block, pass, warn or stay open |
| CheckerVerdicts.DeliveryIff | src/contract_review/rule_checkers.py:911-964 | delivery terms and dates |
| CheckerVerdicts.AcceptanceTermsIff | src/contract_review/rule_checkers.py:967-1010 | acceptance terms |
| CheckerVerdicts.RenewalTermsIff | src/contract_review/rule_checkers.py:1013-1047 | renewal terms |
| CheckerVerdicts.TerminationTermsIff | src/contract_review/rule_checkers.py:1050-1084 | termination terms |
| CheckerVerdicts.BreachTermsIff | src/contract_review/rule_checkers.py:1087-1140 | liability terms |
| CheckerVerdicts.CrossDocumentIff | src/contract_review/rule_checkers.py:1158-1263 | facts of the same kind across documents |
| RuleCheckers.UnreadableRatePasses | src/contract_review/rule_checkers.py:395-426 | a rate that does not read as a number passes whatever is expected |
| RuleCheckers.CheckersAreDisciplined | src/contract_review/rule_checkers.py:327-1264 | each of the nineteen registered checkers uses facts and text of its scope only and is automatic only with sufficient quality; only the attachment checker may abstain |
| RuleCheckers.TextMatchesAre | src/contract_review/rule_checkers.py:289-314 | text matches are exactly the known evidence of the accepted contract candidates that contain the text |
| RuleEngine.ExecuteRuleBundle | src/contract_review/engine.py:121-511 | one finding for each selected rule in bundle order, all of them sound, or an error exactly when inputs do not fit or a finding would cite nothing |
| EngineFindings.SuppliedIff | src/contract_review/engine.py:141-196 | when the inputs of a run fit, by rules, candidates and assessments one by one |
| EngineFindings.InapplicableFinding | src/contract_review/engine.py:239-267 | the finding of a rule that does not apply or whose applicability is open, field by field |
| EngineFindings.PlaybookFinding | src/contract_review/engine.py:269-322 | the finding a playbook position gives, field by field |
| EngineFindings.ClassificationFinding | src/contract_review/engine.py:324-364 | the finding of a classification rule, field by field |
| EngineFindings.KeywordFinding | src/contract_review/engine.py:405-461 | the finding of a keyword rule: warned on accepted candidates that mention the title, open otherwise |
| EngineFindings.OtherFinding | src/contract_review/engine.py:462-511 | the finding of every other rule: open, on everything retrieved for it |
| EngineFindings.ScopeIs | src/contract_review/engine.py:215-238 | what a checker sees: exactly the facts, references and candidates accepted for the rule |
| RuleEngine.OneFindingEach | src/contract_review/engine.py:210-511 | the findings name the selected rules, one each, in order |
| RuleEngine.FindingIsSound | src/contract_review/engine.py:210-511 | every finding: automatic only with sufficient quality and never when undetermined; undecided applicability and rules that nothing can check stay undetermined; outside playbook and classification an automatic finding names only confident facts that accepted candidates back, and cites only them, accepted candidates, the rule, the package and missing terms |
| RuleEngine.CheckerFindingIsJustified | src/contract_review/engine.py:366-403 | an automatic result of a disciplined checker is accounted for by accepted evidence |
| RuleEngine.KeywordFindingIsJustified | src/contract_review/engine.py:405-461 | an automatic keyword finding cites accepted candidates whose text has the keyword, in a fully parsed package |
| RuleEngine.ClassificationIff | src/contract_review/engine.py:324-364 | a classification finding is automatic exactly when there is a contract type, and it is accounted for like the other automatic findings if and only if that fact is confident and backed by an accepted candidate of the rule |
| RuleEngine.ClassificationSkipsTheGate | src/contract_review/engine.py:121-364 | inputs that the engine accepts and for which that fails: an automatic pass on a contract type of confidence 0.1 that nothing backs |

## Left out

- Identifiers and texts are numbers: only equality and order matter. Truncated digests are
  taken to be free of collisions, and SHA-256 is the identity on canonical content.
- run_review is one deterministic base state; the replay theorem starts where it has been
  rebuilt, and covers runs whose risk_analysis block has exactly the four keys that are
  carried over.
- Audit checks of parts that human actions never touch (documents, facts, retrieval traces,
  excerpt hashes) stand as one fixed outcome of the snapshot.
- The impact reason text, similarity and the counts of added and deleted lines, and the
  business patterns that judge clause text: results of pattern matches are inputs.
- The operation, action, reason and original text of a built revision change, and the options
  and line counts of a built comparison: only the rendered report reads them. Field checks of
  the data classes (lengths, ranges) are not modelled either.
- JSON and Redis event stores, file formats, Windows path limits, rename retries and lock
  system calls: one atomic commit, one mutex, one in-memory store.
- Attaching.AttachComparisonMakes: the excerpt of a new piece of evidence is a function of the
  change and not spelled out. Errors are told apart by kind and carry no message.
- AuditMeaning.AuditedIff: speaks of the content that the fingerprint covers; what that is, is
  Fingerprints.FingerprintIff.
- EngineFindings.ScopeIs: for inputs that fit.
- AuditKeeping.AuditExtends: the audit checks of parts that actions never touch stand as one
  outcome that does not change, so the lemma says nothing about how they come out.
- Fingerprints.FingerprintIff: needs distinct ids within each sorted collection, as equal ids
  keep their order; the review context, parsed documents, requests, responses and
  configuration, which the code does not sort, are one field.
- RevisionBuilding.BuiltAlwaysAttaches: with digests free of collisions, and for results whose
  earlier sets carry the names that building gives them.
- RuleEngine.ClassificationIff: no other fact has the id of the contract type.
- RevisionStore.EveryRunIsSafe: bounds the clock, since nothing in the code does; CommitVisibleIff,
  CommitReplacesIff and LostUpdate say what happens beyond the bound.
- RunLedger.EveryRunIsAuditable: assumes fresh event ids and a clock that does not go back, as
  nothing in the code enforces either.
- Money.ParseMoneyValue: characters are single code points, and only ASCII digits match the
  Arabic pattern, as in the source.
- Finality.FinalIff: for conditions that do not name the unknown party or document kind, as
  answers to the others are not stable; FinalIsDecidable covers all conditions.
- RiskReview.ReviewRules: the client is a function of chunk and attempt, so a starved chunk
  answers the same later; confidence, module, quote and response identities are not modelled.
- RiskChunks.RunAndRetry: the wording of a failure may come from the first attempt, and the
  coverage metadata is not modelled.
- Retrieval.Retrieve: text analysis, tokens and anchor hits are inputs, and rounding is any
  function.
- Reranking.Rerank: which anchors occur in a chunk, and where, are inputs, and so is rounding,
  which Reranking.RerankedIsTop needs to keep order, zero and one.
- ClauseBuilding.BuildContractClauses: titles and texts of clauses are not modelled; the order
  of errors is not either, only whether one is raised.
- Obligation extraction and question assessments: keyword patterns over clause text that fill
  fields one by one, with no state and no law that spans operations.
- The spreadsheet column number of the parser: a single arithmetic fold that nothing else here
  uses.
- RuleEngine.ExecuteRuleBundle: playbook outcomes are inputs, and so are patterns found in
  texts; clause ids, reasons and comparisons of findings are not modelled. Decimal sums are
  exact.
- RuleEngine.FindingIsSound: playbook findings may cite whole clauses, so for them only quality
  and status are covered; for classification findings RuleEngine.ClassificationIff says when
  the rest holds too.
- Model clients, routes, task queues, settings, rendering and evaluation scripts.

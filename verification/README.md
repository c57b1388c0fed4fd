# PaperIntel: a verified model

PaperIntel reads research papers with language models. A batch analysis graph ingests a paper,
extracts its method, benchmarks and production readiness, writes an engineer report and indexes
the text; a comparator aligns the benchmarks of several papers; a conversation graph answers
questions from the indexed text and repairs answers that a critic rejects; a discovery flow
searches for papers and lets the user pick some by number.

This project models the deterministic core of that program in Dafny and proves what it
guarantees *whatever the models, the network and the PDF parser reply*. Every such reply is an
arbitrary value: an oracle `nat -> Reply` in the analysis graph (one reply record per pass over a
paper, and no node runs twice in a pass), one reply per agent run in the conversation graph, and
function parameters for GitHub, HuggingFace, relevance scores and URL canonicalisation.

| Files | Part of the program |
|---|---|
| `Downgrade` | evidence collection, maturity, report normalisation, evidence critic |
| `AnalysisGraph`, `AnalysisRuns`, `AnalysisPasses`, `AnalysisHalting`, `AnalysisTheorems` | the batch analysis graph: nodes, routers, the invariant of its runs, runs read off the replies alone, which runs end, results |
| `AnalysisMessages`, `AnalysisReview`, `AnalysisComparison`, `AnalysisChunks` | its error lists, which papers are reviewed and what slots hold, when it compares, and its chunker calls with the ids of stored chunks |
| `Recommending` | what a paper is recommended for, in terms of what GitHub and HuggingFace answer |
| `Workspaces`, `KeptReading` | what is kept of a run for later comparisons |
| `Retrieval`, `Searching` | in-memory retrieval, and what a search returns |
| `Conversation`, `ConversationRuns`, `ConversationEvidence`, `ConversationOutcome` | the conversation graph with citation repair: its runs, what the planner finds, and the state a run ends in |
| `Chunker`, `ChunkReading` | the text chunker |
| `Names`, `NameForms`, `Rows`, `Matrix`, `MatrixTheorems`, `Directions`, `MatrixReading` | the comparator's names and its matrix |
| `Standings`, `StandingsTheorems`, `Recommendations`, `Comparison`, `ReportReading` | what the comparator derives from the matrix, and its report |
| `Analyst`, `RequestReading` | the request-driven analyst and the structural check |
| `CircuitBreaker` | the circuit breaker |
| `Discovery`, `Selection`, `SelectionReading` | search ranking, selection by number, resolution |
| `BenchmarkContext`, `ContextReading` | benchmark windows: collection, merging, budget |
| `Metrics`, `Registry`, `MetricsReading` | label printing and the metrics registry |
| `Wrappers`, `Basics`, `Text`, `Sorting`, `Schemas` | shared datatypes, Python string operations, stable sorting |

The specification functions follow the code step by step. The modules named for what is reviewed,
found, read or meant (`AnalysisReview`, `ConversationEvidence`, `ConversationOutcome`, `Searching`,
`Directions`, `Recommending`, and the `...Reading` and `NameForms` modules) say what they compute
in terms of the inputs and the replies alone, with the program's numbers, names and texts written out.

Conventions. Classes with updated fields are classes here, loops are loops, and each method is
proved against a function of its inputs or old state; the results are then lemmas about that
function. Clocks are parameters. Floats are reals without NaN or infinities. Strings are ASCII as
far as case, whitespace, digits and word characters go. All lemmas carry `{:induction false}`:
inductions call themselves where they are needed.

Findings, where the code differs from its documentation or from what one would expect:

- A failed report does not fail its paper. `report -> evidence_critic -> report_finalize ->
  chunk_and_index` is unconditional, the last step overwrites the `failed` stage, and the same
  paper is read again. A run never ends exactly when from some pass on it reads one paper whose
  report call always fails (`NeverEndsIffStuck`, `HaltsIffReportsFailFinitelyOften`,
  `FailedReportsStutterForever`).
- On the way through that detour the text of paper *i* is filed under slot *i - 1*: its
  `paper_index` and `input_url` are that slot's (`ChunkAttribution`, and `MisfiledCall` for a run
  of two papers in which it happens). The stored `paper_id` comes from the text's own metadata
  when that has an arXiv id, and from the wrong URL otherwise (`ChunkIds`): then the chunks of
  paper *i* overwrite those of a paper *i - 1* without an arXiv id (`MisfiledChunksOverwrite`).
- `errors: []` returned by the finalize nodes passes through an append reducer and clears nothing
  (`ErrorListsAccumulate`). A slot's errors are those of all earlier passes and its own, and only
  its own if and only if no earlier pass said anything (`SlotErrorsFromReplies`,
  `OwnMessagesOnlyIff`; `FailuresPileUp` has runs in which slots carry other papers' failures).
- agents/error_utils.py:1-11 lets a batch go on after a paper's error and keeps fatal errors for
  broken invariants of the graph. One malformed URL is fatal all the same: the batch ends at it
  and later papers are never read. A batch that ends has recorded all its URLs if and only if all
  are well formed, and otherwise exactly those before the first malformed one
  (`BatchSurvivesFailures`; `BadUrlEndsBatch` has runs in which it happens).
- docs/ARCHITECTURE.md:101 has the comparator run when a batch contains several successfully
  completed papers. The code compares exactly the batches whose URLs are all well formed
  (`BatchComparedIff`), so both directions of the rule fail: papers none of which could be read
  are compared (`FailedPapersAreCompared`), and two completed papers before a malformed third URL
  are not (`TwoCompletedNotCompared`). That completed papers are compared holds for all replies if
  and only if all URLs are well formed or a malformed one is among the first two; that compared
  papers are completed, if and only if some URL is malformed (`RuleHoldsIff`).
- What is kept of a run is stricter: its comparison only if several papers were completed
  (`KeptComparisonIff`), and after a malformed URL nothing at all, so papers that the batch had
  completed, indexed and made active cannot be compared afterwards (`BatchKeepsIff`,
  `ServedAfterBatchIff`).
- models/artifacts.py:12-15 has the id of a workspace match the id under which the paper is
  active. They are equal exactly for a paper with an arXiv id written without its version
  (`ActiveIdIsWorkspaceIdIff`).
- With the default sizes two successive chunk windows can end at the same place
  (`StrictProgressIff`, `DefaultsCanStall`).
- A visit bound over `total_papers` alone is wrong for a total of zero: the start state for an
  empty list of URLs takes three visits (`NoPapersTakeThreeVisits`), though the chat handler
  refuses such a list before it runs the graph (api/chat_handler.py:541-549). The bound below uses
  `max(total, 1)`.
- The task, metric and condition normalisers are idempotent. The bare name normaliser below them
  is so exactly on texts whose stripped form neither starts nor ends with a separator
  (`NameIdempotentIff`), and the unit normaliser exactly on those of them that are not blank, and
  on the absent and the empty unit (`UnitIdempotentIff`): a unit "_ms" is not the unit "ms"
  (`OuterSeparatorUnit`, `UnderscoredMilliseconds`).

## Model

| member | source | states |
|---|---|---|
| AnalysisTheorems.BatchIsolation | agents/report_finalize.py:45-101 | in every reachable state of every run: as many slots as papers finalised, at most the total; scratch fields at their reset values at every entry to ingestion; slot k, errors aside, is determined by URL k and the replies of one pass over paper k; the passes of the slots are strictly increasing and not later than the current one |
| AnalysisMessages.ErrorListsAccumulate | models/state.py:17-36 | the error list only grows; slot k begins with every message present when any earlier slot was recorded, and a completed slot holds exactly the messages so far |
| AnalysisMessages.RunRecounts | models/state.py:17-36 | at every moment of every run the error list, with each error's text, severity and recoverability, is the one computed from the replies: the errors of all earlier passes and those of the current one so far; and so is the status of indexing |
| AnalysisMessages.RejectedIff | agents/ingestion.py:155-197 | a paper is rejected if and only if its URL is blank or names no scheme, its file is blank, or the input is of another type; and what each rejected one is rejected for |
| AnalysisReview.ReviewedIff | agents/extraction.py:189-257 | in every run, a paper with text whose extraction went well is reviewed if and only if only its abstract was read or the model's confidence is below 0.7; any other ends its pass |
| AnalysisReview.ScoreIsCapped | agents/extraction.py:231-257 | the score kept is the model's, at most 1, and at most 0.5 for an abstract; it is the reason given for a review |
| AnalysisReview.CompletedSlotHolds | agents/report_finalize.py:79-94 | a completed slot holds, field by field, what the calls of its pass replied: the reviewer's extraction exactly if the paper was reviewed and he replaced it, and the report as far as benchmarks and maturity support it |
| AnalysisReview.SlotIsOfPaper | agents/report_finalize.py:29-42 | slot k has index k and the k-th URL of the list, or the one input |
| AnalysisReview.FailedSlotHolds | agents/paper_failure_finalize.py:45-58 | a failed slot holds what was found before the call that failed, and nothing else |
| AnalysisMessages.SlotErrorsFromReplies | agents/paper_failure_finalize.py:10-64 | each slot's errors, from the replies: the messages of all passes before its own, its own, and for a failed paper the node |
| AnalysisMessages.OwnMessagesOnlyIff | agents/report_finalize.py:45-101 | a slot holds only its own pass's messages if and only if every earlier pass of the run said nothing |
| AnalysisMessages.FailuresPileUp | agents/paper_failure_finalize.py:10-64 | when every ingestion of a batch fails, slot k starts with the failures of papers 0 to k |
| AnalysisHalting.VisitBound | graph.py:63-160 | every run visits at most 9 * (max(total, 1) + failed reports) + 2 nodes |
| AnalysisHalting.NoPapersTakeThreeVisits | agents/ingestion.py:192-195 | the start state for an empty list of URLs is rejected at the third visit, so the maximum in the bound is needed |
| AnalysisPasses.RunFollows | agents/supervisor.py:160-175 | every run follows its replies: the paper read in each pass, the pass of each slot and all chunker calls are those computed from the replies alone, and passes are counted by slots and failed reports |
| AnalysisHalting.EveryPassIsMade | agents/supervisor.py:160-175 | a pass that the replies call for is reached within 18 steps more than 9 for each pass before it |
| AnalysisHalting.NoFurtherPass | agents/supervisor.py:160-175 | once the replies call for no further pass the run ends, within 10 steps more than 9 for each pass |
| AnalysisHalting.HaltsIffReportsFailFinitelyOften | graph.py:136-138 | a run ends if and only if its report calls fail finitely often |
| AnalysisHalting.NeverEndsIffStuck | graph.py:136-138 | in terms of the replies: a run never ends if and only if from some pass on every pass reads the same paper and fails to report it |
| AnalysisHalting.FailedReportsStutterForever | agents/report_finalize.py:53-58 | when every report call of the first paper fails the run never ends and the index stays 0 |
| AnalysisTheorems.EndStates | agents/supervisor.py:160-175 | an ended run holds the comparator's text exactly if it ended outside the error node with two slots or more; it is in stage failed exactly if it ended in that node, which happens only after rejected input or a failure outside a batch, and then that failure is recorded; otherwise it has one slot per paper and every scratch field is empty |
| AnalysisTheorems.BatchSurvivesFailures | agents/error_utils.py:18-84 | a batch that ends has recorded exactly the URLs before its first malformed one: all of them if and only if every URL is well formed, and it ends in the error node exactly otherwise |
| AnalysisTheorems.BadUrlEndsBatch | agents/ingestion.py:185-190 | such runs occur: with every ingestion failing, the papers before a malformed URL are survived, and the run ends there with as many slots |
| AnalysisTheorems.FailedPapersAreCompared | agents/supervisor.py:160-175 | a batch of well-formed URLs whose ingestions all fail ends, and is compared with no slot completed |
| AnalysisComparison.BatchComparedIff | agents/supervisor.py:160-175 | a batch that ends was compared if and only if all its URLs are well formed |
| AnalysisComparison.RuleHoldsIff | docs/ARCHITECTURE.md:101-104 | the documented rule, over all replies: several completed papers are compared if and only if all URLs are well formed or a malformed one is among the first two; a compared batch has several completed papers if and only if some URL is malformed |
| AnalysisComparison.TwoCompletedNotCompared | agents/ingestion.py:185-190 | two completed papers before a malformed third URL: the run ends in the error node and nothing is compared |
| AnalysisComparison.CompletedBeforeMalformed | agents/ingestion.py:185-190 | if every call succeeds, exactly the papers before the first malformed URL are completed, and not compared |
| AnalysisTheorems.AloneEqualsBatch | api/chat_handler.py:948-992 | for every slot of a batch, the run of its URL alone with the same replies ends within 12 steps; if the slot is completed it records that slot, index and errors aside, and otherwise it ends in the error node with no slot |
| AnalysisChunks.ChunkAttribution | agents/chunk_and_index.py:77-197 | every chunker call has the text and metadata of the paper its pass read; it carries that paper's index exactly when the pass was reported, and after a failed report the index and URL of the slot before |
| AnalysisChunks.ChunkIds | services/chunking.py:210-218 | the stored paper id is the paper's own exactly as far as the report succeeded or its metadata has an arXiv id; otherwise it is made from the URL of the slot before |
| AnalysisChunks.SharedIdIff | services/chunking.py:210-218 | two papers without arXiv ids share an id exactly if their stripped URLs have the same digest, or both URLs are blank and the indexes agree |
| AnalysisChunks.MisfiledCall | agents/chunk_and_index.py:85-115 | such a call occurs: two papers, the first completed, the second never reported, and text of both is filed under the first |
| AnalysisChunks.MisfiledChunksOverwrite | services/chunking.py:189-207 | a misfiled call and the call of the slot before, neither with an arXiv id, have the same paper id, and after both upserts every chunk id of the misfiled text holds that text's chunk |
| AnalysisRuns.RunKeepsInv | agents/supervisor.py:23-175 | every reachable configuration satisfies the invariant: index, slots, pass verdict, scratch fields at each node, error marks and the remaining allowance of visits |
| AnalysisRuns.StepTracks | graph.py:33-160 | one step from any node keeps what is known at the nodes, and either records nothing or exactly the reference slot of the current pass |
| Downgrade.KeepBestIsMaximal | agents/readiness.py:308-354 | the kept repository was found and has maximal stars; none is kept exactly when none was found |
| Downgrade.CollectGithubEvidence | agents/readiness.py:308-354 | the loop checks every candidate once, in order, and keeps the best |
| Downgrade.VerifyGithubClaims | agents/readiness.py:498-548 | claimed links (at most two, on GitHub, not checked before) can only replace the repository by one with more stars |
| Downgrade.VerifiedModelIsFirst | agents/readiness.py:529-541 | a model found on its own stands; otherwise the first of at most two claimed ones that exists |
| Downgrade.MaturityIff | agents/readiness.py:596-646 | research-only exactly without open code; production-ready exactly when claimed and backed by open code, 500 stars and releases or a model |
| Downgrade.RecommendationIsCapped | agents/report.py:273-347 | the recommendation is the weaker of the claim and of what the evidence allows, the critic leaves it there, and the difficulty follows the evidence |
| Downgrade.ResearchOnlyIffNothingFound | agents/readiness.py:596-679 | maturity is research_only exactly when no repository was found and no model is verified |
| Downgrade.ImplementNowIff | agents/report.py:273-371 | end to end: implement_now survives exactly when asked for, maturity claimed, extraction and benchmarks present, and the most starred repository found has 500 stars and releases or a verified model |
| Downgrade.ReviewReport | agents/evidence_critic.py:100-189 | the critic changes something exactly when it warns, only lowers recommendations, and leaves none unsupported |
| Downgrade.CriticAcceptsNormalizedReports | agents/evidence_critic.py:135-189 | the critic is the identity, without warnings, on every report the normaliser produces |
| Recommending.ReadinessMeans | agents/readiness.py:271-679 | the readiness in terms of what GitHub and HuggingFace answer about the links looked up: open code if one exists, production-ready exactly if claimed and the most starred repository has 500 stars and releases or a model |
| Recommending.RecommendationMeans | agents/report.py:273-371 | when a paper is recommended for implementation, and at least for a prototype, in the same terms |
| Recommending.DifficultyMeans | agents/report.py:273-371 | when the difficulty is raised, in the same terms |
| Retrieval.UpsertIsLastWriteWins | services/retrieval_layer.py:54-70 | upserting is last-write-wins per chunk id and touches no other id |
| Retrieval.InMemoryRetrievalLayer.UpsertChunks | services/retrieval_layer.py:54-70 | stores the non-blank chunks; skipped counts the blank ones, updated those with text whose id was stored or written before, inserted the growth of the store |
| Retrieval.InMemoryRetrievalLayer.SearchChunks | services/retrieval_layer.py:72-111 | returns the filtered, scored, sorted and ranked top k |
| Retrieval.SearchIsTopK | services/retrieval_layer.py:72-111 | results are stored chunks of the session and papers asked for, ranked from 1 by falling score; nothing left out scores higher |
| Retrieval.SearchForgetsStorageOrder | services/retrieval_layer.py:72-111 | a search does not depend on the order in which chunks were stored |
| Searching.TokensAreWords | services/retrieval_layer.py:200-201 | the tokens of a text are its longest stretches of letters and digits, in lower case |
| Searching.SearchReturnsBest | services/retrieval_layer.py:72-111 | a search returns the best of the chunks of the session and papers that share a word with the query, best first by share of the query's words, then paper, place and id; none left out is better, and then the limit is reached |
| Conversation.RepairIsActionable | services/repair.py:11-49 | a normalised review that objects asks for repair and carries instructions; repair is triggered exactly then |
| ConversationRuns.RetrieveIsGrounded | services/retrieval_layer.py:227-254 | retrieval for active papers yields only stored chunks of active papers, each with its citation |
| ConversationRuns.NormalizedAnswerIsGrounded | agents/answer_agent.py:139-234 | every citation of a normalised answer cites a chunk of the evidence it was given |
| ConversationRuns.CitationsAreGrounded | agents/retrieval_planner.py:217-247 | whatever router, planner, replanner and answer model reply, every citation at every moment names a retrieved stored chunk of an active paper |
| ConversationRuns.RepairLoopIsBounded | graph_conversation.py:53-116 | every run ends within 8 steps after at most 3 answers, 3 reviews and 8 agent runs, with no repair pending |
| ConversationRuns.SurvivingObjectionsAreMarked | agents/citation_critic.py:439-476 | a surviving draft that its last review objects to is iteration 2, confidence at most 0.3, limitations noted |
| ConversationRuns.EveryRunSaysSomething | graph_conversation.py:19-116 | a run that ends leaves an answer, a question for the user, or an error |
| ConversationRuns.ObjectionsUseEveryPass | services/repair.py:52-79 | the bounds are reached: constant objections use all 8 agent runs and the last draft is kept |
| ConversationRuns.BoundsAreReached | services/repair.py:52-79 | for every question about an active paper that some stored chunk matches there are replies that use all 8 agent runs, with a last draft of iteration 2 |
| ConversationRuns.SomeQuestionIsAnswerable | services/retrieval_layer.py:72-111 | there is such a question |
| ConversationRuns.RunKeepsInv | agents/intent_router.py:186-269 | every reachable configuration keeps grounding and the bookkeeping of iterations, draft ids and reviews |
| ConversationEvidence.EvidenceOfStep | agents/retrieval_planner.py:370-434 | the planner plans exactly when there is a persona, a question and papers; its evidence is the 8 best chunks for the first query if any chunk matches it, if the policy allows one iteration or if the replan reply is unusable, and otherwise the best chunks for the model's query, with their citations |
| ConversationEvidence.NothingFoundIff | agents/retrieval_planner.py:384-434 | the evidence of a plan is empty if and only if no stored chunk of the session and the papers matches the first query, and the policy or the reply allows no second one or no such chunk matches that |
| ConversationOutcome.RunOutcome | graph_conversation.py:19-116 | every run has ended after eight steps, in exactly the state computed from the replies alone: the reading of the message, the destination, each draft and review of the repair loop, the errors and the answer |
| Chunker.NormalizeKeepsInk | services/chunking.py:225-227 | normalisation keeps every non-whitespace character, in order |
| Chunker.SplitText | services/chunking.py:138-185 | `_split_text` yields one segment for a short text and otherwise what the loop yields |
| Chunker.SplitLoop | services/chunking.py:158-185 | the loop ends for all texts and legal configurations and yields the segments of the window function |
| Chunker.ChooseEnd | services/chunking.py:160-166 | the paragraph and sentence boundary search |
| Chunker.ChooseNext | services/chunking.py:182-185 | the next start is max(end - overlap, start + 1); the `next_start <= start` branch is dead |
| Chunker.SegmentsAreWindowYields | services/chunking.py:158-185 | the segments are the stripped texts of exactly the windows, in order, blank ones left out |
| Chunker.WindowsTile | services/chunking.py:158-185 | windows start strictly later each time, are not empty, at most target_chars long, leave no gap, overlap by at most overlap_chars, end at the text end, and are at most as many as characters |
| Chunker.StitchingRestoresText | services/chunking.py:158-185 | dropping the overlaps gives the text back |
| Chunker.SplitCoversTheText | services/chunking.py:138-185 | every non-whitespace character of the normalised text lies in a yielded segment, at its place in it |
| Chunker.WindowsEndAtBreaks | services/chunking.py:159-183 | for every text and configuration, each window ends with the text or one past the last paragraph break past the minimum size, or else the last sentence end, or else at the target size; and the next one starts with the overlap asked for, or one character later |
| ChunkReading.NormalizeReads | services/chunking.py:225-227 | normalising drops the whitespace at the end of each line and around the text, and nothing else |
| ChunkReading.SplitReads | services/chunking.py:138-185 | a text shorter than the minimum is one segment unless it is empty; of any other the segments are the stripped texts of the windows that are not blank, for windows that tile the text and end at breaks |
| Chunker.StrictProgressIff | services/chunking.py:18-22 | each window is sure to end later than the one before, over all texts, if and only if target <= min_chunk + 2 or overlap < min_chunk + 2 |
| Chunker.Stall | services/chunking.py:182-185 | otherwise a concrete text whose first two windows end at the same place |
| Chunker.DefaultsCanStall | services/chunking.py:18-22 | the default configuration is legal and on the stalling side |
| Chunker.ProgressBound | services/chunking.py:158-185 | with d = min(target, min_chunk + 2) - overlap >= 1 each window ends at least d later or at the text end, and (k - 1) * d < n for k windows over n characters |
| Names.TaskIdempotent | agents/comparator.py:157-171 | task normalisation is idempotent on all strings |
| Names.MetricIdempotent | agents/comparator.py:174-176 | metric normalisation is idempotent on all strings |
| Names.ConditionIdempotent | agents/comparator.py:179-183 | condition normalisation is idempotent on all strings |
| NameForms.NameIsForm | agents/comparator.py:157-161 | a normalised name is made of the words of the stripped name in lower case, where words are what whitespace, "_" and "/" leave, one space between them, and a space for an outer separator |
| NameForms.TaskIs | agents/comparator.py:164-171 | a task is what the table has for its words, else for its words run together, and else its words hyphenated |
| NameForms.MetricIs | agents/comparator.py:174-176 | a metric is what the table has for its words, and else its words joined with underscores |
| NameForms.ConditionIs | agents/comparator.py:179-183 | a condition is what the table has for its words, and else its words hyphenated; none is the empty one |
| NameForms.UnitIs | agents/comparator.py:186-190 | a unit is what the table has for its words, and else its words; an empty one is none |
| Directions.LowerIff | agents/comparator.py:193-197 | lower is better exactly for the twelve listed metrics and those in whose normalised name one of the seven hints occurs |
| Names.TaskHasNoSlash | agents/comparator.py:164-171 | a normalised task holds no slash, underscore, whitespace or capital |
| Names.NameIdempotentIff | agents/comparator.py:157-161 | a second pass of the bare normaliser changes nothing if and only if the stripped text neither starts nor ends with `_` or `/` |
| Names.UnitIdempotentIff | agents/comparator.py:186-190 | the unit normaliser is idempotent if and only if the unit is absent, empty, or strips to something that neither starts nor ends with `_` or `/` |
| Names.OuterSeparatorUnit | agents/comparator.py:186-190 | a unit word with `_` in front normalises to the word with a space in front, and that to the word |
| Rows.RepresentativeIsFirstBest | agents/comparator.py:204-241 | the representative is the first result when conditions differ and otherwise the first of the best; the paper keeps the row comparable exactly with at most one result |
| Rows.WinnerIff | agents/comparator.py:244-273 | a winner exists exactly when the row is comparable, two values are reported and one beats all others; the margin is the positive gap to the runner-up, zero for tied leaders, absent otherwise |
| Rows.WinnerForgetsOrder | agents/comparator.py:244-273 | winner and margin do not depend on the order of the papers |
| Rows.CollectCells | agents/comparator.py:297-319 | the loop over the papers fills one cell per paper and notices repeated results |
| Rows.BuildRow | agents/comparator.py:288-362 | a row as the loop builds it is the row of the specification |
| Rows.CellIff | agents/comparator.py:297-319 | a cell counts the paper's results, shows a value exactly when there is one, and shows a reported value |
| Rows.ComparableIff | agents/comparator.py:321-340 | a row is comparable exactly when no paper reports it twice and the stated conditions and units agree after normalisation |
| Rows.RowWinnerIff | agents/comparator.py:342-346 | paper w wins exactly when the row is comparable, two papers report it and w outdoes every other; the margin is the positive gap to the best other |
| Matrix.GroupBenchmarks | agents/comparator.py:277-284 | the nested loops build the grouped dictionary and its key order |
| Matrix.BuildComparisonMatrix | agents/comparator.py:276-364 | the matrix as the loops build it is the matrix of the specification |
| MatrixTheorems.GroupIsPick | agents/comparator.py:282-284 | grouping loses nothing, duplicates nothing and keeps the order of each paper's results |
| MatrixTheorems.RowsAreSorted | agents/comparator.py:288 | the rows are strictly sorted by task and metric, and their keys are exactly the reported ones |
| MatrixTheorems.CellsShowTheReports | agents/comparator.py:297-319 | each row has a cell for every paper, made of exactly that paper's results for the key |
| MatrixTheorems.MatrixRowWinner | agents/comparator.py:321-346 | comparability, winner and margin of every row of the matrix, as if-and-only-if |
| MatrixTheorems.DuplicateCountsAddUp | agents/comparator.py:298-300 | duplicate counts over all rows and papers add up to the number of benchmarks |
| MatrixTheorems.MatrixForgetsPaperOrder | agents/comparator.py:276-364 | permuting papers with distinct indexes changes nothing in the matrix |
| Standings.BuildMatrixStats | agents/comparator.py:408-433 | the counts of comparable, won and overlapping rows, and each paper's wins |
| Standings.BuildUniqueRows | agents/comparator.py:390-405 | each paper's sorted list of rows that it alone reports |
| Standings.BuildUniqueTasks | agents/comparator.py:367-387 | each paper's sorted list of tasks that it alone reports |
| StandingsTheorems.WinsConserved | agents/comparator.py:413-423 | wins add up to the rows with a winner, which are at most the comparable and at most the overlapping rows |
| StandingsTheorems.LabelInjective | agents/comparator.py:403 | a row label gives back its task and metric |
| StandingsTheorems.UniqueTaskIff | agents/comparator.py:367-405 | a task is unique to a paper exactly when all its rows are among that paper's unique rows |
| Comparison.MatrixUniqueTaskIff | agents/comparator.py:367-405 | the same for every matrix the program builds |
| Directions.RowDirectionIsRawDirection | agents/comparator.py:288-289 | higher is better in a row if and only if the raw metric of any result in it is not one of those that are better lower |
| Directions.WinnerHasBestValue | agents/comparator.py:244-273 | a paper wins a row of the built matrix if and only if the row is comparable, another paper reports it, and its value is the strictly smallest for such a metric and the strictly greatest for any other; the margin is its distance to the nearest other value |
| Directions.LatencyAndAccuracyRows | agents/comparator.py:276-364 | of two papers that report one task once, the one with the smaller latency wins, and the one with the greater accuracy |
| MatrixReading.RowsReported | agents/comparator.py:276-300 | there is a row exactly for each task and metric that some paper reports, in dictionary order by task and then metric |
| MatrixReading.RowReads | agents/comparator.py:204-364 | every row has a cell for every paper, which counts the paper's results under the key and shows the first of the best ones, or the first one where their conditions differ; the row is comparable if and only if no paper reports it twice and no two state different conditions or units |
| Recommendations.NormalizeRecommendations | agents/comparator.py:585-626 | the loop with its set of seen constraints and its limit takes the recommendations of the specification |
| Recommendations.TakenIff | agents/comparator.py:585-626 | at most five recommendations, for different constraints and eligible papers, each the first accepted one for its constraint; one is missing only when five others came before |
| Comparison.BuildReport | agents/comparator.py:726-786 | the report holds the matrix, the derived lists, counts and overlap ratio, the overall winner kept from the claims and its basis, the recommendations taken from the claims, and the claimed or fallback texts |
| Comparison.TradeOffsAddUp | agents/comparator.py:629-648 | the fallback text's comparable and other rows add up to all rows, and it speaks of completed papers only when there are some |
| Comparison.OverlapIsAFraction | agents/comparator.py:408-433 | the overlap ratio is between 0 and 1, and 0 exactly when no row is reported by two papers |
| Comparison.BasisIff | agents/comparator.py:687-769 | the basis is no_clear_winner exactly when no overall winner is left; a winner left was claimed and is an eligible paper |
| Comparison.UnclaimedBasis | agents/comparator.py:697-723 | without a usable claim the basis rests on benchmarks exactly when the winner won a row and nobody won more; it is mixed only when nobody is more mature |
| ReportReading.TalliesCount | agents/comparator.py:408-433 | the counts of a report are the numbers of its rows, of the comparable ones, of those won, of those that two papers report, and of those that each paper won |
| ReportReading.OverlapReads | agents/comparator.py:726-786 | the overlap ratio times the number of rows is the number of rows that two papers report |
| ReportReading.UniquesHold | agents/comparator.py:367-405 | the unique rows and tasks of a paper are those that it alone reports, once each and in order |
| ReportReading.WinnerReads | agents/comparator.py:687-723 | the overall winner is the claimed one if a completed paper, or any if none is, has that index; the basis is the claimed one, or follows from whether the winner won rows, as many as any, and whether some paper is riper |
| ReportReading.TakenAreFirstOffers | agents/comparator.py:585-626 | the recommendations are the first offers of the model's list: for each constraint, under its name in the table, the first item with a valid paper and a reason; in order, and all of them up to five |
| ReportReading.TextsRead | agents/comparator.py:629-671 | the texts are the model's unless blank, and else made of the numbers of completed papers by maturity and of comparable and other rows |
| RequestReading.RefusalReads | services/paperintel_service.py:1149-1228 | the request is refused for naming one paper only, for the first id that is not stored, or if all are, for the first whose last stored workspace is of a failure; else the workspaces are the last stored under the ids, in order |
| RequestReading.ComplaintsRead | evaluation/ca_structural_checks.py:18-85 | the check complains of exactly what is wrong with the artifact, with exactly the indexes and ids concerned |
| Analyst.ServedIff | services/paperintel_service.py:1190-1228 | a request is served exactly when it names two distinct papers or more, all stored and none failed |
| Analyst.ComparePapers | services/paperintel_service.py:1149-1183 | the artifact of a served request holds its papers in order and the analyst's report |
| Analyst.CheckComparisonArtifact | evaluation/ca_structural_checks.py:18-85 | the check as it runs lists exactly the complaints of the specification |
| Analyst.CheckPassesIff | evaluation/ca_structural_checks.py:18-85 | it passes exactly the acceptable artifacts: papers, producer, summaries and matrix all match the request |
| Analyst.AnalystPassesIff | agents/comparison_analyst.py:143-213 | for any claims, the analyst's report on two workspaces or more is acceptable exactly when some workspace has a valid benchmark |
| Analyst.CompareAndCheck | services/paperintel_service.py:1149-1228 | end to end: a served request's artifact passes the check exactly when one of its workspaces has a valid benchmark, and its basis is no_clear_winner exactly without an overall winner |
| Workspaces.WorkspacesFromAnalysis | api/chat_handler.py:737-785 | the loop makes one workspace of each completed slot with an id, in order |
| Workspaces.ArtifactRepository.UpsertWorkspace | storage/repositories.py:1952-1981 | replaces the workspace with the id or adds one |
| Workspaces.ArtifactRepository.PersistAnalysis | api/chat_handler.py:351-392 | a failed run leaves the store as it is; otherwise all its workspaces are upserted, and its comparison is added if it has one and two workspaces |
| KeptReading.RunKeeps | api/chat_handler.py:351-392 | a run given up leaves the store as it was; after any other, the workspace found under an id is that of the last completed slot with the id, field by field, or what was stored before; the comparison is kept with the ids of the completed papers if it is not empty and there are two |
| Workspaces.BatchKeepsIff | api/chat_handler.py:362-363 | a batch that ends counts as failed, and keeps nothing, if and only if some URL is malformed |
| Workspaces.ServedAfterBatchIff | services/paperintel_service.py:1190-1228 | a request for completed papers of a batch, one of which was not ready before, is served afterwards if and only if all URLs of the batch are well formed |
| Workspaces.KeptComparisonIff | api/chat_handler.py:788-803 | the comparison of a batch is kept if and only if all URLs are well formed, it is not empty, and several papers were completed |
| Workspaces.WorkspaceRoundTrip | api/chat_handler.py:737-785 | a later comparison sees the benchmarks, extraction, readiness and report that the run recorded |
| Workspaces.ActiveIdIsWorkspaceIdIff | models/artifacts.py:12-15 | the id of a paper's chunks, under which it becomes active, is the id of its workspace if and only if the paper has an arXiv id written without a version |
| CircuitBreakers.FailuresAreCountedFromTheCut | tools/circuit_breaker.py:55-72 | the failures that count are those after the last success or reset |
| CircuitBreakers.CircuitBreaker.BeforeRequest | tools/circuit_breaker.py:42-53 | admits exactly as the history says; a refusal's delay is in (0, timeout] |
| CircuitBreakers.CircuitBreaker.State | tools/circuit_breaker.py:31-35 | open exactly when a request would be refused, closed exactly when not tripped |
| CircuitBreakers.CircuitBreaker.RecordSuccess | tools/circuit_breaker.py:55-59 | appends to the history and closes the breaker |
| CircuitBreakers.CircuitBreaker.RecordFailure | tools/circuit_breaker.py:61-66 | appends to the history and opens the breaker at the threshold |
| CircuitBreakers.CircuitBreaker.Reset | tools/circuit_breaker.py:68-72 | appends to the history and closes the breaker |
| CircuitBreakers.RetryAfterIsExact | tools/circuit_breaker.py:47-53 | before a refusal's delay has passed every request is refused and from then on every request is admitted, with only requests in between |
| CircuitBreakers.AdmissionLasts | tools/circuit_breaker.py:74-78 | once admitted, requests stay admitted until a failure is recorded |
| CircuitBreakers.AskWaitAsk | tools/circuit_breaker.py:42-78 | a caller who waits as long as it was told is admitted |
| Discovery.DropDuplicates | services/searcher.py:208-215 | the loop with its set of seen keys keeps the results of the specification |
| Discovery.DroppedIff | services/searcher.py:59-68 | a result is dropped exactly when it shares a key with an earlier result that is kept |
| Discovery.KeptShareNothing | services/searcher.py:208-215 | no two kept results share a key |
| Discovery.DroppedIffSamePaper | services/searcher.py:59-68 | a result is dropped exactly when an earlier one that is kept has the same arXiv id up to case, the same canonical URL or the same title key |
| Discovery.TitleKeyKeepsWords | services/searcher.py:38-40 | a title key has the word characters of the title, in lower case and in order, and otherwise only whitespace |
| Discovery.RankedIsTopK | services/searcher.py:217-236 | the results are sorted by falling score and by rising lower-case title among equal scores, and the first ones, up to the limit, are returned with ranks from 1 |
| Discovery.Search | services/searcher.py:189-239 | a search returns the best of the deduplicated results of the queries that answered, best first; what is left out scores no higher, and then the limit is reached; a warning for each query that failed |
| SelectionReading.GatheredParts | services/searcher.py:195-207 | the results of each query that answered stand together, in the order of the queries |
| SelectionReading.WarningsRead | services/searcher.py:195-207 | there is one warning for each query that failed, in order |
| SelectionReading.HandlingReads | services/selection_parser.py:43-102 | for every message: it is declined for having no number, for a zero, or for exactly the numbers greater than the list; else it selects exactly the candidates at its numbers, once each |
| SelectionReading.ResolutionReads | services/selected_candidate_resolver.py:69-90 | why a selection does not resolve: it is empty, some ids are not stored, or the first unusable candidate is not selected or has no URL |
| Selection.RanksRoundTrip | services/selection_parser.py:43-56 | any list of positive numbers, written with non-digit text between them, is read back without its repetitions |
| Selection.NumbersSelect | services/selection_parser.py:59-102 | valid numbers select exactly those candidates, in the order first named |
| Selection.SelectionDesk.UpsertMany | storage/repositories.py:1857-1867 | stores the candidates of a search, which become the list to select from; a search without results leaves the previous list |
| Selection.SelectionDesk.Handle | services/selection_parser.py:131-147 | a refused message changes nothing; otherwise the chosen records become selected and the session holds their ids once each |
| Selection.SelectionDesk.Resolve | services/selected_candidate_resolver.py:69-90 | resolves the stored selection or complains as the specification says |
| Selection.ResolvedIff | services/selected_candidate_resolver.py:69-90 | a selection resolves exactly when it is not empty and every id is stored and usable; then to the stored candidates in order |
| Selection.ComplaintIsFirst | services/selected_candidate_resolver.py:84-88 | a complaint is about the first candidate that cannot be used |
| Selection.SelectAndResolve | services/selection_parser.py:131-147 | numbers written into any text resolve to exactly those candidates, in the order first named, now selected |
| Selection.DiscoverSelectResolve | services/selected_candidate_resolver.py:69-90 | from the provider's replies to the resolved selection, the same for the ranked results of a search |
| ContextReading.ContextReads | agents/benchmark.py:315-374 | the context of a text is made of the windows that cover exactly what is within 1200 characters of the first four occurrences of each keyword, 24 in all: their stripped texts under their headings, whole as far as 18000 characters go, and one cut if more than 500 are left; without any occurrence it is the last 12000 characters |
| BenchmarkContext.MatchesAreLeftmost | agents/benchmark.py:334-343 | the matches scanned for do not overlap, and every occurrence of the keyword lies within one |
| BenchmarkContext.CollectWindows | agents/benchmark.py:331-345 | the loops collect the first four windows of each keyword and 24 in all |
| BenchmarkContext.Merge | agents/benchmark.py:350-357 | the merging loop computes the merged windows |
| BenchmarkContext.MergedSeparated | agents/benchmark.py:350-357 | merged windows are in order with a gap between any two and no more than before |
| BenchmarkContext.MergedCovers | agents/benchmark.py:350-357 | they cover exactly the positions the windows cover |
| BenchmarkContext.WindowsOfText | agents/benchmark.py:331-357 | for any text: at most 24 merged windows, separated, covering exactly the positions of the collected ones |
| BenchmarkContext.ApplyBudget | agents/benchmark.py:359-372 | the section loop keeps what the budget function keeps |
| BenchmarkContext.BudgetKeepsPrefix | agents/benchmark.py:366-372 | a whole prefix of the sections is kept, and at most one cut section, the first that does not fit |
| BenchmarkContext.ContextIsBounded | agents/benchmark.py:321-374 | the context has at most 18000 + 12 + 7 * 23 characters |
| BenchmarkContext.FormatBenchmarkContext | agents/benchmark.py:321-374 | the whole function, with its fallback to the text's end |
| MetricsReading.LabelsRead | services/observability.py:276-283 | the labels printed for an event are exactly its own, under their names, sorted by name |
| MetricsReading.CountsRead | services/observability.py:71-83 | the numbers printed are those of the events recorded with the labels, and of those whose duration is not above the bound |
| Metrics.EscapeIsOnePass | services/observability.py:294-295 | the three chained replacements are one pass over the characters |
| Metrics.ReadEscaped | services/observability.py:294-295 | reading an escaped value up to its closing quote gives the value back |
| Metrics.LabelsRoundTrip | services/observability.py:286-291 | printed labels are read back exactly |
| Metrics.EventsPrintDistinctly | services/observability.py:276-295 | two events print the same labels only when they agree on the event and on every label field |
| Registry.BucketsPrintDistinctly | services/observability.py:107-117 | two bucket lines print the same labels only when they agree on the event, on every label field and on the bound |
| Registry.ObservabilityMetricsRegistry.RecordEvent | services/observability.py:71-83 | after any sequence of events the four dictionaries hold the counts, sums and buckets of what was recorded |
| Registry.ObservabilityMetricsRegistry.CountInto | services/observability.py:80-83 | the bucket loop counts a duration into every bucket not below it |
| Registry.ObservabilityMetricsRegistry.RenderPrometheus | services/observability.py:85-125 | prints the exposition of the recorded history: the sorted count lines, then for each tuple with durations its buckets, count and sum |
| Registry.EachTupleOnce | services/observability.py:99-109 | every recorded tuple has one count line, every tuple recorded with a duration one histogram, both in the order of the tuples |
| Registry.EventLineTells | services/observability.py:99-102 | a count line gives back its label tuple and its count |
| Registry.BucketsAreMonotone | services/observability.py:80-83 | counted over any history, a larger bound counts at least as many |

## Left out

- Language model, HTTP, S3, Qdrant, Postgres, PDF and file access: their replies are arbitrary values; job leases and the Postgres rate limiter and breaker are not part of this model.
- Prompts, rendered markdown, answer and question texts and log lines: no modelled branch reads them, so they are dropped or replaced by enumerations; the fallback texts of a comparison report are the numbers that they print.
- Agent run records: only the number of agent runs is kept.
- Cancellation, the recursion limit and checkpoints of the graph library: a run of n steps stands for any prefix of a run.
- Exceptions that escape a node: every failure a node turns into an error is a reply.
- Human edits of the state: a person resuming a run may replace the extraction only, of all the fields of the state.
- The reply text of an analysis, its referenced papers and the phase of the session (api/chat_handler.py:697-734), and copying a workspace to another session: one session is modelled.
- Chunk indexes, page numbers, section titles and the abstract chunk (services/chunking.py:80-136): easy members next to the window loop. The hash of a URL and the cut of an arXiv version are parameters.
- Notes of comparison rows and the summaries' other fields: not read by any modelled result.
- Comparison.BuildReport: the overlap ratio is the exact quotient, not rounded to four digits.
- The score of a search result and the canonical URL (services/searcher.py:43-144): parameters, so the results hold for every score and canonical form.
- Which event fields are safe to log or to keep as a trace id (services/observability.py:219-263): one-field filters before the registry.
- The fallback executive summary is one fixed text here, and the error texts of rejected input leave out the value that they quote.
- Error codes, nodes and details: an error is its text, severity and recoverability here.
- The discovery turn id and reply text of a selection: copied, not branched on.
- The benchmark keyword list (agents/benchmark.py:38-63): a parameter, so the window results hold for every list of lower-case keywords.
- Locks: each method of the breaker and the registry is one atomic step.
- Unicode: digits, whitespace, case and word characters are the ASCII ones; lower-casing keeps the length.
- Discovery.Search: candidate ids come from a function parameter instead of random uuids, and a result with a blank title or URL, whose candidate is invalid so that the search raises, is not told apart.
- Selection.SelectionDesk.UpsertMany: one session and its latest non-empty turn only, not the whole table.
- Registry.ObservabilityMetricsRegistry.RenderPrometheus: returns the lines before they are joined; how a float is printed is a parameter.
- Analyst.ComparePapers: stored payloads are already validated, None where validation fails.

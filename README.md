# forkcast core, modelled in Dafny

forkcast is a set of small "concept" stores with business rules, wired together by
declarative synchronizations. This project models the parts of it that carry logic:

- **InsightMining** (`insight_mining.dfy`). Observations of a metric are tagged with
  signals. `analyze` groups the observations of a time window under a deterministic key
  (owner, sorted signals, metric) and upserts one insight per key. `summarize` writes a
  weekly report with the three most helpful and the three most harmful signals and a
  per-metric average. `deactivate` makes an insight inactive, with guards.
- **QuickCheckIns** (`quick_checkins.dfy`). Metrics are defined once by name, and numeric
  check-ins refer to them. Record, edit, delete and deleteMetric are guarded. The guards
  keep metric names unique and keep every check-in's metric defined.
- **PersonalQA** (`personal_qa.dfy`). This concept covers:
  - facts about a user, and forgetting a fact only when the user owns it;
  - `ask`, which cites the ten best facts, scored by token overlap and category hints;
  - `askLLM`, which selects the k latest facts, fills a prompt template and falls back to
    a conservative summary;
  - the per-user templates.
- **Synchronization where-clauses** (`frames.dfy`, `quickcheckins_sync.dfy`,
  `meallog_sync.dfy`, `personalqa_sync.dfy`). A frame is a map from variable to value, and
  a missing key means `undefined`. A concept query run through `frames.query` is a
  function from one frame to the frames it yields. The modelled where-clauses are:
  - owner normalisation and session checks;
  - the request and auth-failure pairs;
  - the list responses;
  - the three rules that answer a request for one meal.
- **The Gemini client** (`gemini.dfy`). The constructor de-duplicates the model order. The
  model fall-back loop of `_callGemini` and the retry loop with exponential back-off of
  `executeLLM` are modelled too.

Stores whose fields the code mutates are classes. Their methods tie the new state to the
old one, and each keeps the invariant `Valid()`: unique document ids, unique metric names,
and every check-in's metric defined. Fresh ids, the clock, the API key, the model's reply
and the SDK's answers are parameters. The loops of the source are `for`/`while` loops.
Most are proved against a recursive specification function; the retry loop of
`executeLLM` and the overlap count of `relevanceScore` are proved against quantified or
closed-form contracts. The properties of the source are
lemmas about those functions. `common.dfy` holds shared sequence, string and sorting
definitions: a stable insertion sort, filter, map, JavaScript's `slice`, `trim` and the
number-to-string conversion.

The repository's own specification describes the synchronization engine: the matcher,
the frame joins and the fixpoint loop. That engine's code is not part of this model (see
below). The concepts, the where-clauses and the Gemini client are modelled from their
code.

## Model

| member | source | states |
|---|---|---|
| InsightMining.CreateInsightKeyOrderIndependent | src/concepts/InsightMining/InsightMiningConcept.ts:20-27 | signals that are a permutation of each other give the same insight key |
| InsightMining.CreateInsightKeyCollision | src/concepts/InsightMining/InsightMiningConcept.ts:20-27 | the key is not injective: signals ["a_b"] and ["a","b"] share a key, because the separator can occur inside a signal |
| InsightMining.InWindow | src/concepts/InsightMining/InsightMiningConcept.ts:133-136 | an observation is selected iff it has the owner and its time lies in [start, end] |
| InsightMining.GroupingKeys | src/concepts/InsightMining/InsightMiningConcept.ts:146-166 | the grouping lists each key once, in first-seen order; it has exactly the keys of the observations; every group is non-empty and stored under the key of its own signals and metric |
| InsightMining.GroupingValues | src/concepts/InsightMining/InsightMiningConcept.ts:153-166 | a key's group holds, in order, the values and times of exactly the observations with that key |
| InsightMining.GroupByInsightKey | src/concepts/InsightMining/InsightMiningConcept.ts:153-166 | the grouping loop builds the grouping specified by GroupObservations |
| InsightMining.AddToGroupingWellFormed | src/concepts/InsightMining/InsightMiningConcept.ts:153-166 | adding one observation keeps the grouping well formed and adds exactly its insight key to the keys |
| InsightMining.AddExistingWellFormed | src/concepts/InsightMining/InsightMiningConcept.ts:155-163 | an observation whose key is already grouped keeps the grouping well formed and the key set unchanged |
| InsightMining.AddNewWellFormed | src/concepts/InsightMining/InsightMiningConcept.ts:155-163 | an observation with a new key keeps the grouping well formed and adds that one key |
| InsightMining.AddObservation | src/concepts/InsightMining/InsightMiningConcept.ts:154-165 | one step of the grouping loop: creates the group if absent and pushes the observation's value and time onto that group, as AddToGrouping specifies |
| InsightMining.Confidence | src/concepts/InsightMining/InsightMiningConcept.ts:174-181 | min(1, n/10) lies in (0, 1], and is 1 exactly when n >= 10 |
| InsightMining.BuildInsights | src/concepts/InsightMining/InsightMiningConcept.ts:171-192 | the loop yields one insight per group, in key order, as InsightsFor specifies |
| InsightMining.FindInsight | src/concepts/InsightMining/InsightMiningConcept.ts:196-200 | a lookup by id finds a document in the collection with that id, and finds none iff no document has it |
| InsightMining.UpsertSpec | src/concepts/InsightMining/InsightMiningConcept.ts:196-200 | after an upsert, the lookup of x's id yields x and every other id keeps its lookup; nothing else is added; ids stay unique |
| InsightMining.UpsertAllSpec | src/concepts/InsightMining/InsightMiningConcept.ts:195-201 | after a sequence of upserts with distinct ids, each upserted id yields its new document and every other id keeps its old document; ids stay unique |
| InsightMining.UpsertEach | src/concepts/InsightMining/InsightMiningConcept.ts:195-201 | the upsert loop equals UpsertAll |
| InsightMining.InsightsForLookup | src/concepts/InsightMining/InsightMiningConcept.ts:171-192 | the computed insights have unique ids, and an id is found iff it is a group key, yielding that group's insight |
| InsightMining.AnalyzeEffect | src/concepts/InsightMining/InsightMiningConcept.ts:153-201 | after analyze, every window key has one insight with that id: it has the owner and sorted signals, is active, its key is recomputed from those signals, its effect is the group's mean minus 5, and its confidence is min(1, n/10); every other id is untouched |
| InsightMining.AnalyzeKeepsIdsUnique | src/concepts/InsightMining/InsightMiningConcept.ts:195-201 | analyze keeps at most one insight per id |
| InsightMining.TallySignalsWellFormed | src/concepts/InsightMining/InsightMiningConcept.ts:259-266 | tallying one insight's signals keeps each signal listed once with a positive count, and adds exactly those signals |
| InsightMining.TallyInsightsWellFormed | src/concepts/InsightMining/InsightMiningConcept.ts:258-267 | the tallies contain exactly the signals of the active insights, each listed once with a positive count |
| InsightMining.AccumulateSignalEffects | src/concepts/InsightMining/InsightMiningConcept.ts:258-267 | the nested tally loop equals TallyInsights |
| InsightMining.AddSignalEffect | src/concepts/InsightMining/InsightMiningConcept.ts:260-265 | one step of the tally loop: the signal's sum grows by the effect and its count by one, as TallySignal specifies |
| InsightMining.RankedEntries | src/concepts/InsightMining/InsightMiningConcept.ts:269-274 | the ranked list holds exactly the tallied signals, each with its own average effect |
| InsightMining.HelpfulRankedSpec | src/concepts/InsightMining/InsightMiningConcept.ts:279-281 | the helpful list is sorted by descending effect and holds exactly the signals whose average exceeds epsilon |
| InsightMining.HarmfulRankedSpec | src/concepts/InsightMining/InsightMiningConcept.ts:284-286 | the harmful list is sorted by ascending effect and holds exactly the signals whose average is below -epsilon |
| InsightMining.TopOfRanked | src/concepts/InsightMining/InsightMiningConcept.ts:279-288 | the slice(0, 3) of a ranked list has at most 3 signals, all qualifying, in ranked order, and no qualifying signal left out ranks before one taken |
| InsightMining.TopHelpfulSpec | src/concepts/InsightMining/InsightMiningConcept.ts:279-282 | topHelpful has at most 3 signals, each with an average above epsilon, largest first, and no omitted helpful signal ranks above a kept one |
| InsightMining.TopHarmfulSpec | src/concepts/InsightMining/InsightMiningConcept.ts:284-288 | topHarmful has at most 3 signals, each with an average below -epsilon, smallest first, and no omitted harmful signal ranks below a kept one |
| InsightMining.TopSignalsSpec | src/concepts/InsightMining/InsightMiningConcept.ts:276-288 | topHelpful and topHarmful each have at most 3 signals; helpful ones have an average above epsilon, largest first; harmful ones have an average below -epsilon, smallest first; no better signal is left out; the two lists are disjoint |
| InsightMining.MetricValuesKeys | src/concepts/InsightMining/InsightMiningConcept.ts:292-298 | each observed metric, and no other, is listed once with at least one value |
| InsightMining.MetricValuesContents | src/concepts/InsightMining/InsightMiningConcept.ts:292-298 | each metric's values are, in order, the values of exactly the observations of that metric |
| InsightMining.GroupMetricValues | src/concepts/InsightMining/InsightMiningConcept.ts:292-298 | the per-metric grouping loop equals CollectMetricValues |
| InsightMining.PushMetricValue | src/concepts/InsightMining/InsightMiningConcept.ts:294-297 | one step of the per-metric loop: creates the metric's list if absent and appends the value, as AddMetricValue specifies |
| InsightMining.MetricTrends | src/concepts/InsightMining/InsightMiningConcept.ts:300-306 | one trend per listed metric, in first-seen order, each with that metric's mean value |
| InsightMining.PeriodTrends | src/concepts/InsightMining/InsightMiningConcept.ts:291-306 | every metric observed in the period has exactly one trend and no other metric has one; each trend's value is the mean of exactly that metric's values in the period |
| InsightMining.FindReport | src/concepts/InsightMining/InsightMiningConcept.ts:421-423 | the report found has the id, and none is found iff no report has it |
| InsightMining.IndexOfOwnedInsight | src/concepts/InsightMining/InsightMiningConcept.ts:350-364 | the position found is the first insight with that id and owner; none is found iff none matches |
| InsightMining.InsightMiningConcept.constructor | src/concepts/InsightMining/InsightMiningConcept.ts:66-70 | all three collections start empty |
| InsightMining.InsightMiningConcept.Ingest | src/concepts/InsightMining/InsightMiningConcept.ts:85-104 | appends exactly one observation with the given fields under a fresh id; insights and reports are unchanged |
| InsightMining.InsightMiningConcept.Analyze | src/concepts/InsightMining/InsightMiningConcept.ts:123-204 | with no owner observation in [now - window h, now] it errors and changes nothing; otherwise the insights become the upsert of one computed insight per key; observations and reports are unchanged |
| InsightMining.InsightMiningConcept.Summarize | src/concepts/InsightMining/InsightMiningConcept.ts:220-324 | a period other than "week", or a week without observations, gives its error and adds no report; a week with observations succeeds with the fresh id and appends exactly one report, carrying TopHelpful, TopHarmful and MetricTrends of the period |
| InsightMining.InsightMiningConcept.Deactivate | src/concepts/InsightMining/InsightMiningConcept.ts:341-391 | the errors come in order (not the owner, no such insight, already inactive) and change nothing; on success only that insight's active flag becomes false |
| InsightMining.InsightMiningConcept.GetObservationsForUser | src/concepts/InsightMining/InsightMiningConcept.ts:401-403 | exactly the observations of the owner |
| InsightMining.InsightMiningConcept.GetInsightsForUser | src/concepts/InsightMining/InsightMiningConcept.ts:411-413 | exactly the insights of the owner, active or not |
| InsightMining.InsightMiningConcept.GetReport | src/concepts/InsightMining/InsightMiningConcept.ts:421-423 | the report with that id, or none iff there is none |
| QuickCheckIns.ApplyEdit | src/concepts/QuickCheckIns/QuickCheckInsConcept.ts:174-180 | the given metric and value replace the stored ones; fields not given, and owner and time, stay |
| QuickCheckIns.CheckInsOf | src/concepts/QuickCheckIns/QuickCheckInsConcept.ts:294-298 | exactly the check-ins of the owner, unchanged |
| QuickCheckIns.CheckInsOfUnknownOwner | src/concepts/QuickCheckIns/QuickCheckInsConcept.ts:294-298 | an owner without check-ins gets an empty listing |
| QuickCheckIns.QuickCheckInsConcept.constructor | src/concepts/QuickCheckIns/QuickCheckInsConcept.ts:49-52 | no check-ins and no metrics |
| QuickCheckIns.QuickCheckInsConcept.Record | src/concepts/QuickCheckIns/QuickCheckInsConcept.ts:66-95 | an undefined metric gives "Metric with ID '...' is not defined." and adds nothing; otherwise exactly one check-in with the given fields is added under the fresh id; metrics are unchanged and the invariant holds |
| QuickCheckIns.QuickCheckInsConcept.DefineMetric | src/concepts/QuickCheckIns/QuickCheckInsConcept.ts:106-130 | a taken name gives the "already exists with ID" error naming the existing metric and changes nothing; otherwise the metric is added under the fresh id; names stay unique |
| QuickCheckIns.QuickCheckInsConcept.Edit | src/concepts/QuickCheckIns/QuickCheckInsConcept.ts:144-197 | the checks come in order (not found, not the owner, new metric undefined) and change nothing; otherwise only the given fields of that check-in change, and nothing changes when no field is given |
| QuickCheckIns.QuickCheckInsConcept.Delete | src/concepts/QuickCheckIns/QuickCheckInsConcept.ts:209-225 | not found and not the owner are errors without change; otherwise exactly that check-in is removed |
| QuickCheckIns.QuickCheckInsConcept.DeleteMetric | src/concepts/QuickCheckIns/QuickCheckInsConcept.ts:264-285 | a missing metric, or one that a check-in refers to, is an error without change; otherwise exactly that metric is removed; every check-in's metric stays defined |
| QuickCheckIns.QuickCheckInsConcept.GetCheckIn | src/concepts/QuickCheckIns/QuickCheckInsConcept.ts:236-240 | the stored check-in, or none iff the id is unknown |
| QuickCheckIns.QuickCheckInsConcept.GetMetricsByName | src/concepts/QuickCheckIns/QuickCheckInsConcept.ts:249-253 | none iff no metric has the name; otherwise the only metric with that name |
| QuickCheckIns.QuickCheckInsConcept.ListCheckInsByOwner | src/concepts/QuickCheckIns/QuickCheckInsConcept.ts:294-298 | exactly the check-ins whose owner is the argument |
| PersonalQA.SourceName | src/concepts/PersonalQA/PersonalQAConcept.ts:5-10 | each fact source has one of the four stored names |
| PersonalQA.Lower | src/concepts/PersonalQA/PersonalQAConcept.ts:73 | `toLowerCase` character by character, keeping the length |
| PersonalQA.RunEnd | src/concepts/PersonalQA/PersonalQAConcept.ts:73 | the end of a run of `[a-z0-9]`: every character before it is in the class, and the character at it is not |
| PersonalQA.RunsSpec | src/concepts/PersonalQA/PersonalQAConcept.ts:73 | the matches of `/[a-z0-9]+/g` are exactly the maximal runs of token characters |
| PersonalQA.TokenizeSpec | src/concepts/PersonalQA/PersonalQAConcept.ts:71-75 | the tokens are exactly the maximal lower-case alphanumeric runs of length >= 3 |
| PersonalQA.RelevanceScore | src/concepts/PersonalQA/PersonalQAConcept.ts:87-92 | the counting loop gives the number of fact tokens that are question tokens, which is at most the number of fact tokens |
| PersonalQA.CategoryHints | src/concepts/PersonalQA/PersonalQAConcept.ts:77-85 | each source is hinted iff its word (or its plural, or for check-ins any of the four spellings) occurs bounded by non-word characters in the lowered question |
| PersonalQA.CategoryHintsExamples | src/concepts/PersonalQA/PersonalQAConcept.ts:81-82 | "Meals?" hints at meals and "my check-ins" at check-ins |
| PersonalQA.AtLeIsTotalPreorder | src/concepts/PersonalQA/PersonalQAConcept.ts:57-59 | the `at` comparator is a total preorder, so sorting by it is well defined |
| PersonalQA.SelectTopK | src/concepts/PersonalQA/PersonalQAConcept.ts:61-63 | never more facts than given |
| PersonalQA.SelectTopKSpec | src/concepts/PersonalQA/PersonalQAConcept.ts:61-63 | for k >= 1: min(k, n) facts, taken from the pool, oldest first, and no fact left out is later than one selected |
| PersonalQA.SelectTopKZero | src/concepts/PersonalQA/PersonalQAConcept.ts:61-63 | `slice(-0)` keeps every fact |
| PersonalQA.ConservativeSummarySpec | src/concepts/PersonalQA/PersonalQAConcept.ts:65-69 | no facts give "Insufficient data to answer yet."; otherwise the summary quotes the last min(3, n) contents and the question |
| PersonalQA.ConservativeSummaryLastThree | src/concepts/PersonalQA/PersonalQAConcept.ts:67 | facts before the last three do not change the summary |
| PersonalQA.IndexOf | src/concepts/PersonalQA/PersonalQAConcept.ts:343-345 | the first occurrence of the pattern from a position, or none iff there is none |
| PersonalQA.ExpandReplacementLiteral | src/concepts/PersonalQA/PersonalQAConcept.ts:343-345 | a replacement without `$` is inserted unchanged |
| PersonalQA.ReplaceFirstNoMatch | src/concepts/PersonalQA/PersonalQAConcept.ts:343-345 | with no occurrence of the pattern, `replace` returns the string unchanged |
| PersonalQA.ReplaceFirstExpanded | src/concepts/PersonalQA/PersonalQAConcept.ts:343-345 | only the first occurrence is replaced, by the replacement with its `$` patterns expanded against the match; the rest is kept |
| PersonalQA.ReplaceFirstAt | src/concepts/PersonalQA/PersonalQAConcept.ts:343-345 | with no `$` in the replacement, the first occurrence is replaced by the replacement literally and nothing else changes |
| PersonalQA.FillTemplateDollarPattern | src/concepts/PersonalQA/PersonalQAConcept.ts:339-346 | for any template holding the placeholder, a question that is `$'` makes the text after the placeholder appear twice in the prompt: `replace` expands the pattern instead of inserting the question |
| PersonalQA.RankLeIsTotalPreorder | src/concepts/PersonalQA/PersonalQAConcept.ts:179-182 | score descending then `at` ascending is a total preorder |
| PersonalQA.CandidatesSpec | src/concepts/PersonalQA/PersonalQAConcept.ts:158-162 | the candidates are exactly the pool's facts with a positive score or a hinted source, each with its own score |
| PersonalQA.RankedTop | src/concepts/PersonalQA/PersonalQAConcept.ts:179-185 | the first ten ranked candidates are ranked, taken from the candidates, and no candidate left out ranks before one taken |
| PersonalQA.CitedOfSpec | src/concepts/PersonalQA/PersonalQAConcept.ts:158-188 | at most 10 cited facts; all are relevant facts of the pool; they are ordered by score descending, then `at` ascending; no relevant fact left out ranks before a cited one |
| PersonalQA.CitedFromRanked | src/concepts/PersonalQA/PersonalQAConcept.ts:178-184 | the top ten of the ranked relevant candidates, mapped to their facts, are at most ten relevant facts of the pool, in ranking order, with no left-out relevant fact ranked ahead |
| PersonalQA.AskAnswerSpec | src/concepts/PersonalQA/PersonalQAConcept.ts:143-188 | zero facts give the "0 facts" answer and no citation; no relevant fact gives the pool-size answer and no citation; otherwise the nonempty cited facts and their conservative summary |
| PersonalQA.NoCandidates | src/concepts/PersonalQA/PersonalQAConcept.ts:158-164 | when no fact of the pool is relevant to the question, there are no candidates |
| PersonalQA.SomeCandidate | src/concepts/PersonalQA/PersonalQAConcept.ts:158-184 | one relevant fact in the pool gives at least one candidate and at least one cited fact |
| PersonalQA.AskLLMReply | src/concepts/PersonalQA/PersonalQAConcept.ts:211-306 | no key or a failed request gives the summary at confidence 0.2 with no draft; otherwise confidence 0.5 and a draft of the filled template and the trimmed reply; the answer is the reply unless that is empty; it is never empty |
| PersonalQA.IndexOfFact | src/concepts/PersonalQA/PersonalQAConcept.ts:129-133 | the first fact with that id and owner, or none iff none matches |
| PersonalQA.PersonalQAConcept.constructor | src/concepts/PersonalQA/PersonalQAConcept.ts:101-107 | all four collections start empty |
| PersonalQA.PersonalQAConcept.IngestFact | src/concepts/PersonalQA/PersonalQAConcept.ts:109-125 | appends exactly one fact with the owner, time, content and source, and returns its fresh id; nothing else changes |
| PersonalQA.PersonalQAConcept.ForgetFact | src/concepts/PersonalQA/PersonalQAConcept.ts:127-135 | "not_owner" and "fact_not_found" change nothing; otherwise exactly that fact is removed |
| PersonalQA.PersonalQAConcept.Ask | src/concepts/PersonalQA/PersonalQAConcept.ts:137-199 | on every modelled outcome of the request, appends exactly one QA owned by the requester, with the answer and cited ids of AskAnswer over the requester's facts |
| PersonalQA.PersonalQAConcept.AskLLM | src/concepts/PersonalQA/PersonalQAConcept.ts:201-307 | on every modelled outcome of the request, appends exactly one QA owned by the requester, citing the k latest facts (12 by default) and answering per AskLLMReply; a draft is appended only when the model answered; the requester's template, or the default one, is used |
| PersonalQA.PersonalQAConcept.AppendDraft | src/concepts/PersonalQA/PersonalQAConcept.ts:286-294 | stores one draft under a new id and nothing else |
| PersonalQA.PersonalQAConcept.AppendQA | src/concepts/PersonalQA/PersonalQAConcept.ts:296-305 | stores one QA under a new id and nothing else |
| PersonalQA.PersonalQAConcept.SetTemplate | src/concepts/PersonalQA/PersonalQAConcept.ts:309-316 | upserts the requester's template; nothing else changes |
| PersonalQA.PersonalQAConcept.GetUserFacts | src/concepts/PersonalQA/PersonalQAConcept.ts:319-321 | exactly the owner's facts |
| PersonalQA.PersonalQAConcept.GetUserQAs | src/concepts/PersonalQA/PersonalQAConcept.ts:322-324 | exactly the owner's QAs |
| PersonalQA.PersonalQAConcept.GetUserDrafts | src/concepts/PersonalQA/PersonalQAConcept.ts:325-327 | exactly the owner's drafts |
| Frames.Lookup | src/syncs/quickcheckins.sync.ts:18-21 | `$[v]` is defined iff the frame binds v |
| Frames.QueryAll | src/syncs/quickcheckins.sync.ts:40-41 | no frames come out iff the query yields nothing for every input frame; every output frame comes from some input frame |
| QuickCheckInsSync.ResolveOwnerIsFirstNonNullish | src/syncs/quickcheckins.sync.ts:18-21 | the `??` chain picks the first of owner, ownerId, ownerFromUser, ownerFromUid, ownerFromRequester that is neither undefined nor null |
| QuickCheckInsSync.NormalizeOwnerBinding | src/syncs/quickcheckins.sync.ts:6-28 | the loop returns the frames whose resolved owner is truthy, in order, each with owner rebound |
| QuickCheckInsSync.NormalizedAppend | src/syncs/quickcheckins.sync.ts:16-27 | normalisation distributes over concatenation, so it preserves order |
| QuickCheckInsSync.NormalizedSingle | src/syncs/quickcheckins.sync.ts:18-25 | one frame is kept, rebound, iff its resolved owner is truthy |
| QuickCheckInsSync.NormalizedSpec | src/syncs/quickcheckins.sync.ts:16-27 | the output is no longer than the input; each output frame is an input frame with only owner rebound to a truthy value; every resolving input frame comes out |
| QuickCheckInsSync.NormalizedFirst | src/syncs/quickcheckins.sync.ts:16-27 | the first output frame is the first input frame whose owner resolves, with owner rebound to the resolved value |
| QuickCheckInsSync.EmptyOwnerDropsFrame | src/syncs/quickcheckins.sync.ts:18-21 | an empty-string owner stops the `??` chain and drops the frame even when ownerId is set |
| QuickCheckInsSync.RequestWhere | src/syncs/quickcheckins.sync.ts:40-41 | frames come out iff some session resolves to a user, and they are `_getUser`'s frames |
| QuickCheckInsSync.AuthFailureWhere | src/syncs/quickcheckins.sync.ts:67-72 | the original frames come out iff there are frames and no session resolves; it never proceeds together with the request rule |
| QuickCheckInsSync.LegacyListSpec | src/syncs/quickcheckins.sync.ts:286-308 | with an empty query, exactly one frame comes out: the first resolving frame with owner bound and an empty list; otherwise the collected rows |
| QuickCheckInsSync.LegacyListRows | src/syncs/quickcheckins.sync.ts:296-304 | the collected rows are empty iff every frame's check-in query is empty |
| QuickCheckInsSync.LegacyListNoOwner | src/syncs/quickcheckins.sync.ts:336-358 | with no resolving owner, no frames come out |
| MealLogSync.OwnerCheckedWhere | src/syncs/meallog.sync.ts:110-114 | only frames where user equals the meal's owner are kept, and no more than were looked up |
| MealLogSync.ListMealsWhere | src/syncs/meallog.sync.ts:201-226 | no session user gives no frames; no meals give exactly one frame with meals = [] and the user frame's other bindings; otherwise the collected meals |
| MealLogSync.MealsByOwnerWhere | src/syncs/meallog.sync.ts:241-252 | no meals give exactly one frame, the first or an empty one, with meals = []; otherwise the collected meals |
| MealLogSync.MealByIdNotFoundWhere | src/syncs/meallog.sync.ts:303-312 | one error frame "Meal not found", bound to the first frame's other variables, iff its own lookup (the result bound back to `meal`) is empty |
| MealLogSync.MealByIdOutcomesExclusive | src/syncs/meallog.sync.ts:281-312 | when the lookup bound to `mealDoc` and the one bound back to `meal` are empty for the same frames, exactly one of GetMealByIdSuccess and GetMealByIdNotFound proceeds |
| MealLogSync.GetMealSuccessWhere | src/syncs/meallog.sync.ts:328-343 | no session gives no frames; a frame comes out iff it is a user-and-meal frame whose meal's owner is that user |
| MealLogSync.GetMealNotFoundWhere | src/syncs/meallog.sync.ts:356-373 | frames come out only with a session and an empty meal lookup, and then they are the user frames with the error "Meal not found" |
| MealLogSync.PermissionDeniedAsWritten | src/syncs/meallog.sync.ts:386-412 | the rule as written: no frames without a session or without a meal |
| MealLogSync.PermissionDeniedFiresForOwner | src/syncs/meallog.sync.ts:394-403 | for the meal's own owner, both GetMealSuccess and GetMealPermissionDenied as written proceed |
| MealLogSync.GetMealPermissionDeniedWhere | src/syncs/meallog.sync.ts:386-412 | corrected rule: no frames without a session or a meal; otherwise the user frames with "Permission denied" |
| MealLogSync.GetMealOutcomesExclusive | src/syncs/meallog.sync.ts:317 | the corrected rule never proceeds together with success or with not found, and denies a found meal that no user frame owns |
| PersonalQASync.EnsureSession | src/syncs/personalqa.sync.ts:6-12 | every frame returned binds user, and they are exactly the session lookup's frames that do |
| PersonalQASync.SessionFailure | src/syncs/personalqa.sync.ts:14-20 | every frame returned binds error, and they are exactly the lookup's frames that do |
| PersonalQASync.BuildListResponse | src/syncs/personalqa.sync.ts:22-29 | exactly one frame: the first one (or an empty one) with the list bound to the items and every other binding kept |
| PersonalQASync.GetUserListSpec | src/syncs/personalqa.sync.ts:182-189 | no frames iff the session check yields none; otherwise exactly one frame, listing the first checked frame's user's results and keeping its other bindings |
| GeminiClient.DedupPreservingOrder | src/utils/gemini.ts:20-26 | the filter with a seen set yields FirstOccurrences |
| GeminiClient.FirstIndex | src/utils/gemini.ts:22-26 | the first position of an element |
| GeminiClient.FirstOccurrencesSpec | src/utils/gemini.ts:20-26 | the model order has no duplicates, the same elements as [primary, ...fallbacks], the primary first, and elements in first-occurrence order |
| GeminiClient.DefaultModelOrder | src/utils/gemini.ts:15-19 | without configuration the order is gemini-2.5-flash-lite, gemini-1.5-flash, gemini-1.5-pro |
| GeminiClient.AnswersIffTrimmedNonEmpty | src/utils/gemini.ts:86 | a response answers iff it is a string whose trimmed text is nonempty |
| GeminiClient.CallFromOk | src/utils/gemini.ts:76-88 | a successful call returns the untrimmed text of the first model that answers |
| GeminiClient.CallFromAnswers | src/utils/gemini.ts:76-88 | if some model answers, the call succeeds |
| GeminiClient.CallFromErr | src/utils/gemini.ts:89-98 | when no model answers, the call throws the last model's error, or the generic one when that is not an Error |
| GeminiClient.GeminiLLM.constructor | src/utils/gemini.ts:13-27 | the model order is the de-duplicated [primary, ...fallbacks] with defaults |
| GeminiClient.GeminiLLM.CallGemini | src/utils/gemini.ts:73-99 | the loop's outcome is CallOutcome over the model order |
| GeminiClient.GeminiLLM.ExecuteLLM | src/utils/gemini.ts:29-71 | with maxRetries < 0 there is no attempt and null is thrown; otherwise null is never thrown, and there are between 1 and maxRetries + 1 attempts, all but the last failed; success returns the last attempt's text; failure takes maxRetries + 1 attempts and reports the count and the last error; the wait after failed attempt n is initialBackoffMs * 2^(n-1) |

## Left out

- The synchronization engine (matcher, frame joins, `collectAs`, the fixpoint loop and which rules fire together) is not part of this model. `frames.query` is a function from a frame to the frames it yields, and `collectAs` is an arbitrary function on frame sequences.
- MongoDB I/O: collections are sequences or maps. The acknowledgement and count failure branches are not modelled, and neither is the concurrency safeguard of deactivate (src/concepts/InsightMining/InsightMiningConcept.ts:379-388).
- The clock and `iso()`: `now` and `at` are parameters. InsightMining times are integer milliseconds; PersonalQA times are the stored ISO strings.
- Fresh ids are parameters, required not to be in use.
- Floating point: averages, effects, confidences and epsilon are exact reals. Rounding and NaN are not modelled.
- InsightMining.TruncateMs: `new Date` of a fractional millisecond count is modelled as truncation toward zero; invalid dates are not modelled.
- InsightMining.CreateInsightKey: `[...signals].sort()` compares UTF-16 code units, while Common.SortStrings and Common.StrLe compare Unicode scalar values. For signals outside the Basic Multilingual Plane the order can differ (for "\u{FF01}" and "\u{1F600}" JavaScript puts the emoji first, the model last), and so can the insight's `_id` and stored signals.
- MealLogSync.MealByIdOutcomesExclusive: GetMealByIdSuccess binds the lookup's result to `mealDoc`, while GetMealByIdNotFound binds it back to the request's own `meal`. Whether the engine keeps a frame whose bound variable is rebound is engine behaviour, so the lemma takes as a premise that the two lookups are empty for the same frames.
- PersonalQA.RankLe: `localeCompare` is modelled as plain lexicographic order on characters, without locale rules.
- PersonalQA.AtLeIsTotalPreorder: the `<` of `sortByAtAsc` compares UTF-16 code units; the model compares Unicode scalar values. The two differ only beyond the Basic Multilingual Plane.
- PersonalQA.Lower: `toLowerCase` is modelled on ASCII letters only, and `\W` in the category hints uses the ASCII word class.
- PersonalQA.SelectTopK: `k` is an integer; a fractional `k` is not modelled.
- PersonalQA.AskLLMReply: the HTTP request, the JSON body and `extractGeminiText` are not modelled; their result enters as an `LlmOutcome` (a failed status, or the extracted text or none). The endpoint and the generation settings are left out. A `fetch` or `resp.json()` that rejects makes `askLLM` reject with nothing stored; that path is not modelled, so PersonalQA.PersonalQAConcept.AskLLM always stores a QA.
- GeminiClient.GeminiLLM.ExecuteLLM: the timeout race and the real sleeps are not modelled. Whether an attempt times out is a parameter, and the waits are returned. `timeoutMs` is never read. maxRetries and initialBackoffMs are integers.
- GeminiClient.GeminiLLM.CallGemini: the SDK call is not modelled; the prompt, the API key and `maxOutputTokens` do not reach the function that stands for the SDK's answer per model. Thrown values that are not Errors carry no message.
- QuickCheckIns.QuickCheckInsConcept.ListCheckInsByOwner: the result is a map from id, so the order that the database returns is not modelled.
- Frames.Lookup: JavaScript `===` on objects compares identity; the model compares values.
- MealLogSync.GetMealSuccessWhere: whether GetMealSuccess and GetMealNotFound can both proceed depends on the engine's queries, so it is not claimed.
- The legacy-list and ListMeals where-clauses return `collectAs`'s result unexamined when there are rows.
- The MealLog and SwapSuggestions concepts, `src/concepts/Requesting/passthrough.ts` (a route table) and `src/syncs/insightmining.sync.ts` (all commented out) are not part of this model. The when/then patterns of the syncs are not modelled either, because they are engine configuration.

## Findings

| source | as written | input that shows it | evidently intended | confidence | as-written member | corrected member |
|---|---|---|---|---|---|---|
| src/syncs/meallog.sync.ts:394-403 | GetMealPermissionDenied filters the meal frames looked up from the request's own frames, which do not bind `user`, so `mealDoc.owner === $[user]` compares against undefined and every found meal looks unauthorized | a request by the meal's owner: the request frame binds session and meal, `_getUser` binds user u1, and `_getMealById` binds a meal owned by u1; GetMealSuccess and GetMealPermissionDenied both proceed | filter the user-extended frames, as GetMealSuccess does, so that the rule is exclusive with success (as the comments at lines 317 and 411 say) | not executed | MealLogSync.PermissionDeniedFiresForOwner | MealLogSync.GetMealOutcomesExclusive |

# KubeCure in Dafny

KubeCure is a Kubernetes operator. A detector opens a `Diagnosis` for each distinct failure of a
workload, an evidence controller attaches what can be read about it, and an investigator lets a
language model read more, within budgets, until it submits cited hypotheses. This project models
that pipeline and proves what it promises whatever the model, the cluster, the clock and the other
clients of the API server do.

There are three layers.

* **The investigation.** `Agent.Investigator.Run` is the loop, over a mutable `LoopState`, a model
  whose every reply is an arbitrary function of the conversation, and a broker whose every read is an
  arbitrary function of the calls before it. It is proved against `Investigation`, which says, as
  functions of the calls made and the usage charged, what a report must be. `Validation` is the gate
  for submissions, `Tools` the broker, `BrokerConcurrency` the broker under concurrent callers,
  `Prompt`, `Blocks`, `Catalog` and `Opening` how evidence is shown and what a reader finds in it,
  `GeminiAdapter` a consumer of the conversation.
* **The pipeline.** `Pipeline` is the protocol: a server of versioned objects and any number of
  workers that read stale versions, write conditionally, lose races and crash, while anyone deletes.
  `PipelineRuns`, `PipelineFindings` and `PipelineRecreation` prove what holds over all its runs.
  `Reconcilers` holds the three reconcile loops as imperative code against a server with arbitrary
  answers, and `Executions` shows that executing them beside others on one server is a run of the
  protocol.
  `InvestigatorController` joins evidence, broker and loop, and proves the end-to-end statements.
* **The algorithms underneath.** `Detector` (classification over time), `Signature` and `Subdomains` (names),
  `Workload` (whose failure it is, and which pods a broker may read), `RateLimit`, `Evidence` (the
  requirement matrix and collection), `Text`.

Four statements one might expect are false of the code, and the project says when they hold.

* A tool call that names the diagnosed pod reads it: exactly when its ReplicaSet, if any, is not
  controlled by another kind than a Deployment. A call that names no pod always reads it while it
  lives, without that test (`Workload.DiagnosedPodIsServed`, `Workload.ForeignControllerIsRefused`).
* The findings on a diagnosis are those of its evidence: always when the version investigated and the
  version written are of one object, so in every run that never deletes the name; for every failure
  and policy there is a run with a deletion in which it fails (`PipelineFindings.FindingsMatchEvidence`,
  `PipelineFindings.FindingsMatchUnlessDeleted`, `PipelineRecreation.RecreatedNameGetsForeignFindings`).
* Every citation on a diagnosis leads to something stored on it: exactly unless it names a successful
  call beyond the thirty that are kept; a policy of more than thirty calls lets that happen
  (`PipelineFindings.CitationsOnRecord`, `OneTurnRuns.LateCitationIsCutOff`).
* A generated name is a DNS subdomain: exactly when every dot in the visible part of the workload
  stands between alphanumeric characters (`Subdomains.NameIsSubdomainExactly`,
  `Subdomains.SomeNamesAreRefused`).

The second and third are shown on the code itself: methods run the collection and the investigation
loop on a model that brings the failure about.

The signature has a boundary that no Kubernetes object reaches: failures are hashed from different text
exactly as long as their fields hold no NUL (`Signature.KeyInjective`, `Signature.NulSharesKey`).

Where the repository's README differs from the code, the code is followed: it calls the detector
upcoming and lists phases `Diagnosed` and `Healed`, while the code has a detector and the phases
`Detected`, `Enriched` and `Hypothesized`.

Each file holds one module. `dafny verify dfyconfig.toml` checks them all.

## Model

| member | source | states |
|---|---|---|
| `Agent.Investigator.Run` | internal/agent/investigator.go:151-220 | Terminates for every model and broker. No turn starts once a limit is reached; a run that stops names the limit that barred its next turn, or the clock when the model itself missed a deadline. The requests made are exactly the growing conversation; every call belongs to a turn whose model asked for it, and the audit gains one record per call; the result is a report of exactly the calls and usage there were, or the model's own error with nothing concluded. |
| `Agent.Investigator.TakeTurn` | internal/agent/investigator.go:177-216 | One turn that nothing bars keeps the whole-run invariant or ends the run: with the first acceptable submission and the reads before it, with a clock stop exactly when the reply is a deadline, or with the reply's error, and then without a call. |
| `Agent.Investigator.FollowUp` | internal/agent/investigator.go:193-216 | Usage is charged before calls are handled; a turn without calls is answered with a prompt to continue, and one near a limit with an urge to conclude. |
| `Agent.Investigator.HandleCalls` | internal/agent/investigator.go:223-265 | Every call has its own result in order, each read the outcome of its own read; reads stop at the budget; a submission is judged on exactly the calls made before it; the first acceptable one ends the turn, all before it having been refused. |
| `Agent.Investigator.ReadOnce` | internal/agent/investigator.go:250-263 | One read counts once, makes one audit record, updates the requirements, and gains the next evidence id only on success. |
| `Agent.Investigator.Submit` | internal/agent/investigator.go:226-240 | Done exactly when the submission is acceptable on the calls so far; otherwise nothing changes and the rejection lists every objection. |
| `Agent.LoopState.constructor` | internal/agent/investigator.go:152-175 | The ledger starts as the baseline and every counter at zero. |
| `Agent.LoopState.Account` | internal/agent/investigator.go:323-330 | Tokens and cost stay the totals over all usage charged so far. |
| `Agent.LoopState.ExhaustedReason` | internal/agent/investigator.go:332-343 | Empty exactly while no enforced limit is reached; otherwise the first reached in the order clock, tokens, cost. |
| `Agent.ReasonIsBarrier` | internal/agent/investigator.go:177-187 | What the loop finds exhausted before a turn is the limit that bars that turn, as a function of the clock and the usage charged. |
| `Agent.UnbarredLater` | internal/agent/investigator.go:177-187 | Usage charged later bars no turn that has started, and each enforced budget is passed by no more than the last turn. |
| `Agent.LoopState.Stop` | internal/agent/investigator.go:357-362 | Records the reason and drops any hypotheses. |
| `Agent.LoopState.RecordRequirement` | internal/agent/investigator.go:302-321 | Every requirement follows one more call: success collects, failure makes unobtainable, denial changes nothing. |
| `Agent.LoopState.SplitMissing` | internal/agent/investigator.go:275-287 | Uncollected requirements split into those still obtainable and those not. |
| `Agent.LoopState.Accept` | internal/agent/investigator.go:268-297 | The gate and its result as a function of the trace: objections when refused, ranked and if need be capped hypotheses when not. |
| `Agent.ConversationShape` | internal/agent/investigator.go:176-216 | After t turns the conversation has 1 + 2t messages, alternates, answers each call once and in order under its id and name, and every request strictly extends the one before. |
| `Agent.PromptsSay` | internal/agent/investigator.go:200-216 | Each model turn is replayed as said; after it the model is told to go on when it called nothing, and to conclude exactly when a budget is nearly spent. |
| `Blocks.ReadsAreShown` | internal/agent/investigator.go:242-263 | Every read of a handled turn is answered with what that read gave: a block that a reader finds its identifier, tool and content in, or its own reason for failing; it is refused only when the budget is spent. |
| `Agent.PlaceAmongReads` | internal/agent/investigator.go:226-263 | Each read of a turn has its own place among the reads made. |
| `Agent.ReadsAndSubmissions` | internal/agent/investigator.go:226-263 | A turn's reads and its submissions are all of its calls. |
| `Agent.RejectionLists` | internal/agent/investigator.go:235-240 | A rejection splits back into every objection, in order. |
| `Agent.ObjectionsDecide` | internal/agent/investigator.go:268-297 | There is no objection exactly when the submission is acceptable. |
| `Agent.MadeBeforeStable` | internal/agent/investigator.go:223-265 | Later reads of a turn do not change what an earlier submission in it was judged on. |
| `Agent.AuditedConcat` | internal/tools/broker.go:129-150 | Audits of consecutive stretches of calls add up to the audit of the whole. |
| `Investigation.RequirementState` | internal/agent/investigator.go:302-321 | Collected iff it was at the start or a matching call succeeded; an uncollected one is obtainable iff it was and no matching call failed; denials never count. |
| `Investigation.MissingCounts` | internal/agent/investigator.go:274-289 | One missing entry per uncollected requirement, none otherwise. |
| `Investigation.LedgerExact` | internal/agent/investigator.go:168-170 | The evidence ids are exactly E1 to En for n successful reads, each naming its read; nothing is overwritten when the baseline uses another form. |
| `Investigation.SuccessAt` | internal/agent/investigator.go:255-262 | The successes are the calls that succeeded, in the order they were made. |
| `Investigation.LedgerPrefix` | internal/agent/investigator.go:259-262 | An entry of the ledger does not depend on later reads. |
| `Investigation.EvidenceIdInjective` | internal/agent/investigator.go:259-260 | Distinct counters never print the same identifier. |
| `Investigation.ConcludedXorExhausted` | internal/agent/investigator.go:177-219 | An error-free run is concluded or exhausted, never both; it is concluded exactly when it has one to five hypotheses. |
| `Investigation.DegradedMeans` | internal/agent/investigator.go:268-297 | Degraded iff some requirement was neither in hand nor read; then confidences are at most 70, and one still obtainable is missing only if every call was used. |
| `Investigation.CitationsResolve` | internal/agent/findings.go:144-148 | Every citation of a conclusion names a baseline item or a call that succeeded in the run. |
| `Investigation.CitationInLedger` | internal/agent/findings.go:144-148 | Ranking, deduplication and capping leave no citation outside the ledger. |
| `Investigation.LedgerResolves` | internal/agent/investigator.go:259-262 | The ledger's keys are exactly the baseline ids and the ids of successful reads. |
| `Investigation.ConclusionCitations` | internal/agent/findings.go:159-183 | Each concluded hypothesis carries the citations, once each, and the trimmed cause of one submitted hypothesis. |
| `Investigation.ConclusionPresents` | internal/agent/investigator.go:268-297 | A concluded run reports its last submission itself, in order of confidence, with every confidence above 70 lowered to 70 when evidence is missing and none otherwise. |
| `Investigation.MissingNames` | internal/agent/investigator.go:274-289 | The missing entries are exactly the kinds of the uncollected requirements, with the tool to call while one can help. |
| `Investigation.UnobtainableListedFirst` | internal/agent/investigator.go:289 | What no call can supply is listed before what one still could. |
| `Investigation.TotalsAdd` | internal/agent/investigator.go:323-330 | Tokens are those put in and those given out, and each is charged at its own price. |
| `Investigation.CostError` | internal/agent/investigator.go:323-330 | Rounding loses less than two units per turn, and never overcharges when no charge is negative. |
| `Investigation.RecordedCost` | internal/agent/investigator.go:323-330 | The recorded cost is the exact charge rounded down, off by less than two units a turn. |
| `Validation.ValidateSubmission` | internal/agent/findings.go:110-171 | Reports exactly the problems of a submission, in order; when there is none it returns its hypotheses, each once with its own cause, confidence, citations and actions, by descending confidence and otherwise in the order submitted. |
| `Validation.ProblemsExact` | internal/agent/findings.go:110-171 | Every problem reported is real and every real one is reported. |
| `Validation.AcceptedMeans` | internal/agent/findings.go:118-168 | Accepted exactly when it holds one to five hypotheses, each sound. |
| `Validation.CheckScalars` | internal/agent/findings.go:130-143 | The problems of the cause, the confidence and an empty citation list. |
| `Validation.CheckCitations` | internal/agent/findings.go:144-148 | One problem for each citation outside the ledger. |
| `Validation.CheckActions` | internal/agent/findings.go:150-157 | The problems of the proposed actions. |
| `Validation.Rank` | internal/agent/findings.go:175-184 | In place: a stable descending order of confidence, labelled H1 to Hn with ranks 1 to n. |
| `Validation.StableSortSorts` | internal/agent/findings.go:175-177 | The order is descending, a permutation, and keeps the order of equal confidences. |
| `Validation.StableOrderUnique` | internal/agent/findings.go:175-177 | There is only one such order, so any stable sort gives it. |
| `Validation.RankedPresents` | internal/agent/findings.go:159-183 | There is a permutation of the submission along which confidence descends and equal ones keep their order; at each rank stand the trimmed cause, the confidence, the distinct citations and the actions of that submitted hypothesis. |
| `Validation.CappedPresents` | internal/agent/findings.go:186-192 | The same after capping, each confidence above the ceiling lowered to it. |
| `Validation.SortOrder` | internal/agent/findings.go:175-177 | The permutation behind the stable order. |
| `Validation.DescriptionNames` | internal/agent/findings.go:127-157 | A description names its hypothesis by place and quotes what is unknown in it. |
| `Validation.CapConfidence` | internal/agent/findings.go:186-192 | In place: every confidence above the ceiling becomes the ceiling and nothing else changes. |
| `Validation.CappingKeepsRanking` | internal/agent/findings.go:186-192 | After capping the list is still descending with the same ids and ranks, and none exceeds the ceiling. |
| `Validation.Dedupe` | internal/agent/findings.go:194-204 | Computes the distinct items. |
| `Validation.DistinctKeepsFirstOccurrences` | internal/agent/findings.go:194-204 | The same elements, none twice, in the order they first occurred. |
| `Prompt.WrappedBlockEndsOnce` | internal/agent/prompt.go:85-88 | For any content, the closing tag occurs exactly once, as the end of the block, iff neither the id nor the source carries it. |
| `Prompt.WrappedOccurrences` | internal/agent/prompt.go:85-88 | Where the closing tag can occur in a block, for any id, source and content. |
| `Prompt.NeutralisedHasNoClosingTag` | internal/agent/prompt.go:86 | The left-to-right rewrite leaves no closing tag, not even across the edges of what it replaced. |
| `Prompt.NeutraliseKeepsHarmlessContent` | internal/agent/prompt.go:86 | Content without the tag is untouched. |
| `Prompt.EscapedContains` | internal/agent/prompt.go:87 | Quoting neither adds nor removes a closing tag. |
| `Blocks.BlockReadsBack` | internal/agent/prompt.go:85-88 | A reader that knows only the form of a block gets back its identifier and source, whatever they hold, and its rewritten content. |
| `Blocks.BlockShows` | internal/agent/prompt.go:85-88 | The content read is the content itself when it holds no tag, is recovered from it when it does not hold the rewritten form, and never holds a tag. |
| `Blocks.BlockEndsWithContent` | internal/agent/prompt.go:85-88 | Content without the tag stands as it is between a line break and the end of the block. |
| `Blocks.FirstTagRewritten` | internal/agent/prompt.go:86 | The first tag of a text is rewritten and then the rest after it, which with untouched tag-free text determines every rewriting. |
| `Blocks.ContentRestored` | internal/agent/prompt.go:86 | Putting the tags back recovers any content that does not hold the rewritten form. |
| `Blocks.QuotedReadsBack` | internal/agent/prompt.go:87 | Quoting loses nothing: every value, and where it ends, is read back. |
| `Catalog.NamesArePlain` | internal/tools/catalog.go:70-133 | No evidence id or catalogue tool name carries the closing tag. |
| `Catalog.ShownEvidenceEndsOnce` | internal/agent/investigator.go:259-263 | Whatever a successful read returned, the block the model is shown ends exactly once. |
| `Opening.OneTagPerBaselineItem` | internal/agent/prompt.go:51-81 | The opening message holds exactly one closing tag for each baseline item, whatever the excerpts hold, if its other parts hold none. |
| `Opening.ExcerptIsShown` | internal/agent/prompt.go:51-81 | Every baseline item stands in the opening message in a block that gives back its id, kind and excerpt. |
| `Opening.FactIsShown` | internal/agent/prompt.go:51-81 | Every fact stands in it on a line of its own. |
| `Opening.OpeningNames` | internal/agent/prompt.go:51-57 | It begins with the failure and names the workload, its namespace and its container. |
| `Opening.UnobtainableIsShown` | internal/agent/prompt.go:70-80 | It lists every required kind that cannot be obtained. |
| `Opening.CollectedEvidenceIsClosed` | internal/controller/investigator_controller.go:200-255 | For the controller's own input that is one for each item collected, if the names and the container's own reasons hold none. |
| `Opening.BlockHasOneTag` | internal/agent/prompt.go:85-88 | A block whose id and source hold no closing tag holds exactly one. |
| `Catalog.SatisfierAgreesWithCatalogue` | internal/controller/investigator_controller.go:258-276 | A call satisfies a kind of evidence exactly when the tool it names reads that kind. |
| `Tools.Broker.BindTo` | internal/tools/broker.go:94-99 | A fresh broker with an empty audit; a ceiling of zero or less becomes the default. |
| `Tools.Broker.Call` | internal/tools/broker.go:129-150 | Answers as the ceiling, the catalogue and the handler decide, in that order, and records exactly once whatever the outcome: arguments, duration, and a summary of the content or else the error. |
| `Tools.Broker.CheckAndRun` | internal/tools/broker.go:152-172 | Nothing is read past the ceiling or outside the catalogue; content is scrubbed before it is bounded. |
| `Tools.Answer` | internal/tools/broker.go:152-172 | A read succeeds only below the ceiling and for a known tool, and its content is bounded. |
| `Tools.AnswerMeans` | internal/tools/broker.go:152-172 | A read succeeds, and a call fails, iff it is below the ceiling, of a known tool, and the handler says so; everything else is denied; content that fits is the scrubbed content, whole. |
| `Tools.RecordMeans` | internal/tools/broker.go:129-150 | Every field of a record: tool, arguments, duration, and the size and first line of the content or else the reason there is none, each cut where it is too long. |
| `Tools.FirstLineMeans` | internal/tools/broker.go:210-213 | The first line is everything before the first line break. |
| `Tools.CeilingMeans` | internal/tools/broker.go:94-99 | A ceiling of at least one is kept; any other is twenty-five. |
| `BrokerConcurrency.CeilingHolds` | internal/tools/broker.go:129-163 | In every interleaving with at most k calls in flight at most ceiling + k - 1 pass the check, and every completed call has exactly one record. |
| `BrokerConcurrency.NothingPassesAFullAudit` | internal/tools/broker.go:152-158 | Once the ceiling is on record nothing more passes. |
| `BrokerConcurrency.SequentialCallsAreExact` | internal/tools/broker.go:129-163 | With one call at a time, the i-th is admitted exactly when i is below the ceiling. |
| `BrokerConcurrency.BoundIsReached` | internal/tools/broker.go:129-163 | Some interleaving of k callers admits exactly ceiling + k - 1, so the bound is tight. |
| `BrokerConcurrency.StepKeepsBound` | internal/tools/broker.go:152-158 | Each step keeps what bounds the admissions. |
| `BrokerConcurrency.StepKeepsAccount` | internal/tools/broker.go:137-149 | Each step keeps every begun call in exactly one place. |
| `GeminiAdapter.ToContents` | internal/model/gemini/gemini.go:143-186 | Converts message by message, dropping only empty user messages, and fails exactly when some replayed call does not decode. |
| `GeminiAdapter.ConversationSurvives` | internal/model/gemini/gemini.go:143-186 | Of a conversation the loop produced no message is dropped and each keeps its place. |
| `GeminiAdapter.TurnContentSays` | internal/model/gemini/gemini.go:145-168 | A model turn is converted under the model's role, with its text and then its calls in order. |
| `GeminiAdapter.UserContentSays` | internal/model/gemini/gemini.go:169-184 | A user message is converted under the user's role, with its text and then its results in order. |
| `GeminiAdapter.OriginalIsReplayed` | internal/model/gemini/gemini.go:146-150 | A turn that carries its original content is replayed as that. |
| `GeminiAdapter.ResponsesMatchCalls` | internal/model/gemini/gemini.go:169-179 | The parts that answer a turn carry its calls' ids and names in order. |
| `GeminiAdapter.ReplayedParts` | internal/model/gemini/gemini.go:146-168 | The parts of a replayed turn, each call with its id, name and arguments, or nothing when a call's arguments do not decode. |
| `GeminiAdapter.UserParts` | internal/model/gemini/gemini.go:169-182 | The text and the results of a user message, in order. |
| `Conversation.ScriptedModel.Generate` | internal/agent/scripted.go:44-55 | Answers by the script and records the request. |
| `Evidence.Collect` | internal/evidence/collector.go:76-120 | Every kind is reported once, in order; the summary fields agree with the items, and the redactions are those of the content kept. |
| `Evidence.CollectOne` | internal/evidence/collector.go:82-114 | One kind's item, skipped, unavailable with its reason, or scrubbed and bounded content, and how much was scrubbed from what is kept. |
| `Evidence.ItemMeans` | internal/evidence/collector.go:82-114 | An item is required, skipped or collected exactly when the matrix and the read say so. |
| `Evidence.ItemSays` | internal/evidence/collector.go:82-114 | A collected item holds the scrubbed text, whole when it fits and otherwise its end; an unavailable one the error, or that there was no content. |
| `Evidence.RedactionsOfItem` | internal/evidence/collector.go:104-108 | What is scrubbed counts for items that are kept, and for no other. |
| `Evidence.RedactionsAdd` | internal/evidence/collector.go:80-117 | The total counts each kind once. |
| `Evidence.RawTextNeverStored` | internal/evidence/collector.go:104-110 | Sources that fail alike, are blank alike and scrub to the same give equal evidence: the raw text never reaches it. |
| `Evidence.Truncate` | internal/evidence/redact.go:83-95 | Content that fits is kept; longer content keeps its end, after a marker, filling the limit. |
| `Evidence.EveryFailureNeeds` | internal/evidence/matrix.go:45-101 | Every failure requires its events and its workload. |
| `Evidence.LogsWhereTheyExist` | internal/evidence/matrix.go:45-163 | No logs are asked for where no container ran, and the item says why. |
| `Evidence.CausesAreRead` | internal/evidence/matrix.go:45-101 | Nodes, endpoints, references and usage are read only for failures they can cause. |
| `Evidence.CompleteMeans` | internal/evidence/collector.go:111-119 | Complete iff every kind the matrix requires gave usable content. |
| `Evidence.CatalogueExact` | internal/evidence/matrix.go:106-117 | The catalogue lists each kind exactly once. |
| `Evidence.WithoutPodIsWellGathered` | internal/controller/evidence_controller.go:139-154 | The record of a vanished pod is consistent evidence and is not complete. |
| `InvestigatorController.BuildInput` | internal/controller/investigator_controller.go:200-255 | Builds the baseline and the requirements from the evidence, item by item. |
| `InvestigatorController.InputScalars` | internal/controller/investigator_controller.go:200-222 | The failure, its place, the limits, the prices and the proposable actions of an input. |
| `InvestigatorController.FactsMean` | internal/controller/investigator_controller.go:224-233 | The facts are exactly the container's exit code and reasons as far as known, and its restarts. |
| `InvestigatorController.BaselineMeans` | internal/controller/investigator_controller.go:235-242 | The baseline is the collected items in order, each under its kind with its content, or the first 1500 characters of it. |
| `InvestigatorController.RequirementsMean` | internal/controller/investigator_controller.go:243-253 | The requirements are the required items in order, each with the tool that reads its kind. |
| `Catalog.ToolReadsKind` | internal/controller/investigator_controller.go:60-71 | Calling the tool named for a kind reads that kind. |
| `Catalog.CatalogueReads` | internal/tools/catalog.go:70-133 | What each of the ten tools reads. |
| `InvestigatorController.LedgerKeepsBaseline` | internal/controller/investigator_controller.go:236-241 | No read of any run ever overwrites a baseline entry. |
| `InvestigatorController.NeverRejectedForEvidence` | internal/controller/investigator_controller.go:235-253 | On enriched evidence no requirement is ever both uncollected and obtainable, so a submission is refused only for its own problems. |
| `InvestigatorController.MissingEndToEnd` | internal/agent/investigator.go:274-289 | What a conclusion reports missing is exactly what enrichment missed and no call read. |
| `InvestigatorController.DegradedEndToEnd` | internal/agent/investigator.go:289-295 | Degraded iff some kind missing at enrichment was not read later; complete evidence never degrades. |
| `InvestigatorController.CeilingIsOnlyABackstop` | internal/controller/investigator_controller.go:46-55 | In every execution every call is answered as under any ceiling at or above the agent's own budget; the audit has one record per counted call; what is stored is a prefix of it, all of it up to 30 calls. |
| `InvestigatorController.Investigate` | internal/controller/investigator_controller.go:131-142 | The composed run is an execution of the loop on the input of exactly this evidence, in the world of this model, this registry and this clock: every outcome is the registry's own reading and every record is of it; it fails exactly when the model's last reply is an error other than a deadline. |
| `InvestigatorController.BrokerAudit` | internal/tools/broker.go:152-158 | Calls that stay below the broker's ceiling are answered as if there were none. |
| `InvestigatorController.RunFailure` | internal/agent/investigator.go:183-191 | A run has an error exactly when the reply to its last request is one that is not a deadline, and it is that error. |
| `Reconcilers.PodReconciler.Reconcile` | internal/controller/pod_controller.go:75-162 | Ends without a request, as the first read that decides says, exactly unless the failure is reportable; otherwise it acts under the name of that failure, with the requests and the result each answer calls for. |
| `Reconcilers.PodReconciler.OpenDiagnosis` | internal/controller/pod_controller.go:117-148 | The requests made for a name and the result, case by case of the server's answers: nothing for a name that exists, later for a full hour, and a lost race is no error. |
| `Reconcilers.PodReconciler.NameFailure` | internal/controller/pod_controller.go:111-112 | The name and spec are those the signature of the failure gives. |
| `Reconcilers.EarlyErrors` | internal/controller/pod_controller.go:82-109 | A detection fails early exactly with the error of the first read it needed that failed. |
| `PipelineRuns.DetectionRecords` | internal/controller/pod_controller.go:254-291 | Every field of a new diagnosis: the failing pod's name and uid, its workload unless it stands for itself, and the failure, container, policy and time. |
| `PipelineRuns.DetectionNames` | internal/controller/pod_controller.go:111-112 | The signature is the first eight characters of the hash of the failure's five fields, and the name is made of workload, failure and signature. |
| `PipelineRuns.ReplicasShareAName` | internal/controller/pod_controller.go:111-124 | Replicas under one controller that fail alike are diagnosed under one name, whoever detects them. |
| `Reconcilers.Governing` | internal/controller/pod_controller.go:202-216 | No policy governs exactly when there is none; otherwise the first with the default name, or the first of all when none has it. |
| `Reconcilers.CoversMeans` | internal/controller/pod_controller.go:218-229 | A policy that lists no failures covers all of them. |
| `Reconcilers.EvidenceReconciler.Reconcile` | internal/controller/evidence_controller.go:57-135 | One write, exactly when the version read is Detected and its pod could be looked up: evidence, facts and redactions of the very instance that failed, or the record that it is gone; the result follows the answer that decided it. |
| `Reconcilers.EvidenceOfDetectedPod` | internal/controller/evidence_controller.go:109-135 | While the pod a diagnosis was opened for is the one found under its name, evidence is collected from it and never says it is gone; once another or none is found, that is all it says. |
| `Reconcilers.InvestigatorReconciler.Reconcile` | internal/controller/investigator_controller.go:110-159 | Only the first read is sent exactly when the diagnosis is not enriched, its policy is missing or does not enable the agent, there is no model, or the model failed; otherwise the findings of an execution on the version read, under its policy and through the given registry, are recorded. |
| `Reconcilers.InvestigatorReconciler.Record` | internal/controller/investigator_controller.go:163-195 | At most five attempts, each a fresh read and a write of that read; only a conflict leads to another; a version that is no longer enriched ends it silently. |
| `Reconcilers.InvestigatorReconciler.Attempt` | internal/controller/investigator_controller.go:168-194 | One read of the latest version and, only if it is enriched, one conditional write of the findings. |
| `Executions.DetectorExecutionIsRun` | internal/controller/pod_controller.go:117-148 | Whatever an execution of the detector leaves on a server that others use meanwhile, with stale reads, lost answers and races, a run of the protocol leaves there. |
| `Executions.EvidenceExecutionIsRun` | internal/controller/evidence_controller.go:57-107 | The same of the evidence controller. |
| `Executions.InvestigatorExecutionIsRun` | internal/controller/investigator_controller.go:110-195 | The same of the investigator, whether it only reads or records through any number of conflicts. |
| `Executions.ReadIsRun` | internal/controller/evidence_controller.go:60-67 | An execution that only reads leaves what others leave. |
| `Executions.RecordingIsRun` | internal/controller/investigator_controller.go:168-194 | Recording from any attempt on is the protocol reading again and writing until a write is not a conflict. |
| `Executions.OthersSimulated` | internal/controller/investigator_controller.go:168-194 | What other clients do to the server between two requests they can do whatever this worker is at. |
| `Executions.ReconciledIsRun` | internal/controller/investigator_controller.go:110-195 | Any number of reconciles of any of the three controllers, one after another from an empty server while others act, leaves what a run of the protocol leaves. |
| `Executions.ExecutionsKeepPromises` | internal/controller/investigator_controller.go:163-195 | So on that server everything ever stored is consistent, of two versions of one object the later is an advance on the earlier, and what is live is its newest version. |
| `Pipeline.StepKeepsInv` | internal/controller/investigator_controller.go:163-195 | Every step of every worker keeps the protocol invariant. |
| `Pipeline.CreateStep` | internal/controller/pod_controller.go:136-141 | Create and its race keep the invariant; the object starts with no phase. |
| `Pipeline.MarkDetectedStep` | internal/controller/pod_controller.go:142-148 | The detector's status write keeps the invariant, also when it loses. |
| `Pipeline.WriteEvidenceStep` | internal/controller/evidence_controller.go:80-90 | The evidence write keeps the invariant, from however stale a read. |
| `Pipeline.WriteFindingsStep` | internal/controller/investigator_controller.go:168-194 | The findings write keeps the invariant, through conflict, deletion and retry. |
| `Pipeline.StagesRecord` | internal/controller/investigator_controller.go:173-193 | Every field each of the three status writes changes, and that it changes no other. |
| `Pipeline.CurrentIsRead` | internal/controller/investigator_controller.go:163-164 | A conditional write that succeeds finds exactly the version that was read. |
| `PipelineRuns.RunKeepsInv` | internal/controller/evidence_controller.go:57-107 | Every state of every run satisfies the invariant. |
| `PipelineRuns.EveryVersionIsConsistent` | internal/controller/pod_controller.go:142-148 | Everything ever stored has evidence, findings and each timestamp exactly from their phase on, the timestamps in order and not in the future. |
| `PipelineRuns.StepShape` | internal/controller/evidence_controller.go:57-107 | A step leaves the server alone, removes an object, creates one, or advances one by exactly one phase. |
| `PipelineRuns.OnePhaseAtATime` | internal/controller/investigator_controller.go:163-195 | In every run a live object is left alone by a step or moves to the next phase with what it had recorded. |
| `PipelineRuns.NeverGoesBack` | internal/controller/pod_controller.go:117-148 | Over any stretch of a run the spec never changes, the phase never goes back, and evidence, findings and timestamps once present stay as they are. |
| `PipelineRuns.WrittenOncePerPhase` | internal/controller/investigator_controller.go:173-175 | No object ever has two versions in one phase, so each stage's result is written at most once. |
| `PipelineRuns.NameDenotesOneFailure` | internal/controller/pod_controller.go:111-124 | Across races, deletions and recreations, a name always stands for one failure type and signature. |
| `PipelineFindings.FindingsMatchEvidence` | internal/controller/investigator_controller.go:113-194 | However stale the reads, findings were computed from exactly the evidence stored with them if the version investigated is of the same object. |
| `PipelineFindings.FindingsMatchUnlessDeleted` | internal/controller/investigator_controller.go:113-194 | In every run that never deletes the name, the version investigated is of the same object and holds the very evidence stored with the findings. |
| `PipelineFindings.InvestigatedMeans` | internal/controller/investigator_controller.go:131-142 | What one investigation of consistent evidence can return; every citation leads to a collected item or to a successful call of its whole trail. |
| `PipelineFindings.StoredFindingsMean` | internal/controller/investigator_controller.go:173-189 | On a finished diagnosis no hypotheses means a budget ended the run; degraded findings are capped and never come from complete evidence; while the stored trail is not full every citation leads to a collected item or a stored call; and the record tells of one run. |
| `PipelineFindings.StoredRecordMeans` | internal/controller/investigator_controller.go:173-189 | The record of a run against its calls and usage: the first thirty calls in order, tokens exactly, cost within the rounding bound or zero without a price, turns, the reason for stopping, the degradation, and one submission's hypotheses. |
| `PipelineFindings.CitationsOnRecord` | internal/controller/investigator_controller.go:163-166 | A citation leads to what is stored exactly unless it names a successful call beyond the thirty kept, so always under a policy of at most thirty calls. |
| `OneTurnRuns.OneTurn` | internal/agent/investigator.go:177-214 | The execution on a model that asks for n reads and then submits what they support is determined: one turn, n successful reads, and the submission concludes. |
| `OneTurnRuns.LateCitationIsCutOff` | internal/controller/investigator_controller.go:163-166 | Runs the controller's investigation under a policy of more than thirty calls, on any evidence: it returns hypotheses whose citation nothing stored resolves. |
| `PipelineFindings.SuccessesAreRecorded` | internal/tools/broker.go:129-150 | The audit shows exactly as many successes as the ledger numbered. |
| `PipelineRecreation.RecreatedNameGetsForeignFindings` | internal/controller/investigator_controller.go:168-194 | Runs the collection and the investigation, for any failure, price and policy of at least one call: there is a run, with the diagnosis deleted and reopened meanwhile, that stores what they return on evidence no investigation with these findings can have had. |
| `Detector.ClassifiedByFirst` | internal/detector/detector.go:73-97 | A pod not being deleted is classified by the first check that fires, and not at all iff none does. |
| `Detector.CheckStays` | internal/detector/detector.go:101-236 | A check that fires keeps firing, with the same signal, as time passes. |
| `Detector.FailingPodsStayFailing` | internal/detector/detector.go:73-236 | An unchanged failing pod stays failing; the deciding check only moves earlier, and an equal one gives an identical signal. |
| `Detector.ClassificationSettles` | internal/detector/detector.go:185-236 | Past the last declared deadline the classification never changes again. |
| `Detector.CauseBeatsSymptom` | internal/detector/detector.go:128-178 | A container is OOMKilled iff a termination record says so, whatever it displays; failing that, the displayed reason decides, then a crash, and its readiness only when nothing else is known. |
| `Detector.MemorySignalQuotes` | internal/detector/detector.go:128-151 | A signal of exhausted memory quotes the record that says so, and keeps what is displayed meanwhile. |
| `Detector.DisplayedSignalQuotes` | internal/detector/detector.go:153-164 | Failing that, a displayed reason is quoted with its message and the previous exit code. |
| `Detector.CrashSignalQuotes` | internal/detector/detector.go:166-176 | Failing that, a crash is quoted from its record. |
| `Detector.UnreadySignalSays` | internal/detector/detector.go:185-206 | An unready container is reported with no exit code and its own reason. |
| `Detector.UnreadyReportedFrom` | internal/detector/detector.go:185-236 | Exactly from its start plus delay, threshold times period and fifteen seconds on, with the defaults for what the probe leaves out. |
| `Detector.BudgetIsAllowance` | internal/detector/detector.go:212-236 | The budget is that of the first container of the name. |
| `Detector.UnschedulableReportedFrom` | internal/detector/detector.go:101-124 | A pending pod is unschedulable exactly from thirty seconds after its first such condition on. |
| `Detector.DisplayedReasonMeans` | internal/detector/detector.go:242-255 | Which failure each displayed reason stands for; any other is transient. |
| `Signature.KeyInjective` | internal/detector/signature.go:53-58 | A failure whose fields hold no NUL is hashed from text that no other failure shares, whatever the other's fields hold. |
| `Signature.NulSharesKey` | internal/detector/signature.go:53-58 | A failure with a NUL in some field shares its text with another, so the condition is exact. |
| `Signature.KeyIsJoined` | internal/detector/signature.go:53-57 | The hashed text is the five fields, in that order, joined by NUL. |
| `Signature.SanitizeKeepsLetters` | internal/detector/signature.go:93-97 | Sanitising keeps every letter and digit, in order, in lower case. |
| `Signature.LoweredMeans` | internal/detector/signature.go:94 | ASCII capitals become their small letters; other ASCII characters stay. |
| `Signature.NameShape` | internal/detector/signature.go:76-90 | A name has at most 216 characters, so the final cut is never reached, and alphanumeric ends. |
| `Signature.NameRoundTrip` | internal/detector/signature.go:76-90 | A name reads back as exactly its workload segment, failure type and signature. |
| `Signature.NameInjective` | internal/detector/signature.go:76-90 | Two names are equal iff segment, type and signature are. |
| `Subdomains.NameIsSubdomainExactly` | internal/detector/signature.go:76-97 | A name is a DNS subdomain (section 2.1 of RFC 1123) iff, in the part of the workload between its outer alphanumeric characters that survives the cut, every dot stands between alphanumeric characters. |
| `Subdomains.SomeNamesAreRefused` | internal/detector/signature.go:76-97 | The workload "a.-b" yields a name that is not one. |
| `Subdomains.SegmentIsVisible` | internal/detector/signature.go:76-97 | The workload segment is that part of the workload, each run of other characters a dash, or "pod" when nothing is left. |
| `Subdomains.SubdomainWorkload` | internal/detector/signature.go:93-97 | A workload that is a DNS subdomain is kept as it is, up to the cut, and yields one. |
| `Signature.WorkloadSegmentProperties` | internal/detector/signature.go:76-83 | The workload segment is never empty, has alphanumeric ends and at most 180 characters. |
| `Workload.DiagnosedPodIsInScope` | internal/tools/scope.go:137-166 | In every cluster state the membership test of its own diagnosis accepts a diagnosed pod iff no foreign kind controls its ReplicaSet, and rejects it otherwise. |
| `Workload.DiagnosedPodIsServed` | internal/tools/scope.go:83-114 | While the diagnosed pod lives, a call that names no pod always reads it, untested; a call that names it reads it iff no foreign kind controls its ReplicaSet, and is denied otherwise. |
| `Workload.NamedPodIsChecked` | internal/tools/scope.go:83-106 | A call that names a pod is served that pod iff it exists and is a member, and denied iff it is known to be missing or foreign. |
| `Workload.ReplacementIsAMember` | internal/tools/scope.go:118-132 | The replacement for a pod that is gone is the first member listed, reached only past pods known to be foreign; none left is a denial. |
| `Workload.ForeignControllerIsRefused` | internal/tools/scope.go:137-166 | There is a cluster in which every diagnosis opened for a pod has a broker that refuses it by name. |
| `Workload.SiblingsAreInScope` | internal/tools/scope.go:137-166 | With the built-in controllers, every pod of the diagnosed workload is accepted by name. |
| `Workload.DeploymentScopeIsExact` | internal/tools/scope.go:146-166 | For a Deployment the broker accepts exactly the pods the detector attributes to it. |
| `Workload.AttributionMeans` | internal/controller/pod_controller.go:174-199 | Every branch of the attribution: no controller, another kind, a ReplicaSet missing, bare, controlled or unreadable. |
| `Workload.ReplicasShareAWorkload` | internal/controller/pod_controller.go:174-199 | Pods under one controller are attributed alike. |
| `Workload.ControllerIsFirst` | internal/detector/signature.go:63-71 | The controller is the first owner that says so. |
| `Workload.ScopeMeans` | internal/tools/scope.go:62-78 | A broker's scope is its diagnosis's namespace, pod, container, failure and owner. |
| `RateLimit.WithinRateLimit` | internal/controller/pod_controller.go:233-252 | Within iff no limit is set or fewer than the limit were created in the last hour. |
| `RateLimit.RecentCountIsExact` | internal/controller/pod_controller.go:244-250 | What is counted is exactly the diagnoses created after the cutoff. |
| `RateLimit.SlidingWindow` | internal/controller/pod_controller.go:126-140 | Every window of an hour, less the stamps' skew, holds at most limit + missed live diagnoses. |
| `RateLimit.WindowCanFill` | internal/controller/pod_controller.go:126-140 | Some run fills a window with exactly that many. |
| `Text.DecimalRoundTrip` | internal/agent/investigator.go:259-260 | The digits printed for a number read back as it. |
| `Text.IntegerRoundTrip` | internal/controller/investigator_controller.go:225-233 | A signed number printed is read back. |
| `Text.TrimSpaceMeans` | internal/agent/findings.go:129 | Trimming removes exactly the white space at either end. |
| `Text.SplitJoin` | internal/agent/investigator.go:238-239 | Joined parts are recovered by splitting. |

## Left out

- Liveness: that a diagnosis reaches its last phase. A failed status write after the create leaves it without a phase for good, and grace periods schedule no recheck.
- Phases after Hypothesized: declared in the API, reached by no controller here.
- The readers behind each kind of evidence and tool, Kubernetes and Gemini clients, watches, manager set-up, RBAC and the MCP server: reads are arbitrary outcomes.
- SHA-256: any function to text of at least eight hexadecimal characters. The clock: arbitrary readings, monotone in the protocol.
- Pipeline.StepKeepsInv: the protocol is stated on values, since versions are read by several workers and compared; the imperative form of the same reconcilers is in `Reconcilers`, and `Executions` ties the two. The protocol lets a conflicting write be retried for ever, where the code gives up after five attempts.
- Executions.InvestigatorExecutionIsRun: an honest server reports a conflict only of an object that exists in another version, and a timestamp is read between the last answer and the write; the executions of different workers interleave as steps of the protocol.
- Pipeline.ConcludeStep: an investigation may return any report its evidence allows, which covers whatever the loop returns.
- Pipeline.CreateStep: the detector may find any name absent at any time, which covers stale caches; that a create only follows the rate limit is in `Reconcilers` and `RateLimit`.
- PipelineFindings.FindingsMatchEvidence: one direction only; a recreated object may by chance hold the same evidence again, so a different identity does not imply different findings.
- RateLimit.SlidingWindow: one detector, creating one diagnosis after another, under a fixed limit; several detectors that check before any of them creates are bounded only through what a listing may miss.
- Decoding of JSON arguments and of submissions, and the tools' schemas: a call carries its arguments decoded, or the reason decoding failed.
- Redaction patterns: scrubbing is an arbitrary function of content.
- Tools.Broker.Call: one call at a time; concurrent calls are the state machine of `BrokerConcurrency`.
- Agent.Investigator.Run: the system prompt and the tool list sent with each request, log lines, and the duration, which the returned value never carries.
- Agent.LoopState.Account: integers are unbounded; the narrowing to 32 bits when findings are stored is not modelled.
- Agent.PromptsSay: the urge to conclude compares with 0.8 in floating point; the model compares exactly.
- Prompt.EscapedContains: code points outside ASCII are all written as escapes, where Go's quoting keeps the printable ones; neither contains the closing tag.
- Detector.CheckStays: durations are unbounded, where a probe's threshold times its period can overflow 64 bits.
- Cuts of long text (excerpts, audit fields, evidence content) count characters, where Go counts bytes.
- The provider's name in a stored record is a constant. The copy of hypotheses into API types, and the collector's reading of container facts, are taken as they are.
- The check that a named container exists in the pod.
- The two log tools share a name in the catalogue; the order of results of the similar-diagnoses search is not modelled.
- The evidence plan, which only orders the kinds, and the pod event filter.

# KYC decision pipeline: a verified model

The program decides know-your-customer cases. A package of documents goes through a graph of
steps: intake, a router that classifies the documents, an orchestrator that fans out one
extraction worker per known document, a validator with a grounding evaluator, a risk scorer
that screens names in two registries, a gate, and either an automatic decision or a human
review that may be resumed several times. Every call to an outside service is retried a bounded
number of times and then given to a fallback; a step that still fails degrades the case.

This project models all of that as one step machine over the rules and text functions
underneath, with every outside service as an arbitrary oracle: each call site has a script from
attempt number to "answers this" or "raises that", so a classifier, extractor, evaluator,
registry or narrator may say anything and fail on any call. A run is a sequence of choices
(which worker finishes next, what a reviewer sends); `Machine.Exec` says where it leads, and the
main results hold for every world, every input and every run.

The loops and objects of the program are methods and classes, each proved against the function
the lemmas are about: the retry loop, the validation and risk loops, the confidence formula, the
extractor and evaluator, the registry search, every step that calls services or emits events
(`NodeMethods`), a whole run with its audit sink (`Runner`), the event stream, and the case
service.

| file | models |
|---|---|
| `Schemas`, `Channels` | records, settings, the case state and its additive channels |
| `Resilience` | bounded retry with fallback |
| `Text`, `Dates`, `GlitchMarkers`, `Services`, `Registries` | normalisation, dates, fault-injection markers, offline extractor and evaluator, answer reconciliation, name search |
| `ValidationRules`, `Confidence`, `RiskRules` | rules, arithmetic, triggers, decision matrix |
| `Audit` | the sink and the wrapper that contains its failures |
| `Nodes`, `NodeMethods` | the steps of the graph, as functions and as the program runs them |
| `Machine`, `Progress` | runs, the invariant of every run, termination, fan-out and fan-in |
| `StepFacts` | what the steps put into the state and the trail, written out |
| `Gatekeeping`, `Schedules`, `EvaluatorEffect` | exact outcome, independence of schedules, the effect of the evaluator |
| `Accounting`, `CallBounds` | retry counts, bounds on calls |
| `Replay`, `Trails`, `Noninterference`, `Runner` | human review, the audit trail, what cannot influence a result |
| `EventStreams`, `Cases` | the event stream beside the runs that write it, and the case service |
| `Witnesses` | concrete runs in which an expectation fails |

Where the code and its documentation disagree the model follows the code:

- The design document, and `src/kyc_agent/audit/sink.py:3-5`, promise that the decision is recorded
  before a case finalises. The code does not enforce it: failed writes are swallowed. The decision is
  recorded exactly when its own write, the last but one of the run, succeeds
  (`Trails.RecordedExactly`, `Runner.Run`). A case closed by a reviewer emits `human_decision`
  instead of `decision_made` (`Trails.TrailEnds`).
- An extracted expiry date that is present but not a valid ISO date makes the validator raise
  instead of degrading the case. The model keeps this as a final state `Crashed`.
  `Progress.RaisesExactly` says exactly when it happens, and nothing else raises;
  `Witnesses.ExtractionThatRaises` gives a document on which the offline extractor brings it about.
- Reason codes can depend on the order in which workers finish when a registry fails, because a
  pass stops at the first name that gets no answer. `Witnesses.OrderChangesCodes` gives two runs that
  show it; `Schedules.ScheduleIndependent` says exactly when the codes of two runs agree, and that
  outcome, level and confidence always do.

Assumptions, all visible in the statements that need them: unique document ids
(`Accounting.OwnRetryCount` only; elsewhere the last document of an id is looked up, as in the
code); `max_step_retries >= 0` (a `nat`); for the two-run results, evaluator and registries that
answer by what they are asked (`Stateless`); dates the library parses are calendar dates
(`CalendarDates`, for the expiry rule); a space is whitespace (`Text.NormalizeExact`); digits, `.` and `-` are not whitespace and case
folding leaves them alone (`DateCharsPlain`).

## Model

| member | source | states |
|---|---|---|
| Resilience.RetryIsFirstSuccess | src/kyc_agent/llm/resilience.py:27-76 | the step returns the first success of 1+R primary calls and one optional fallback, with exactly the earlier failures numbered 1, 2, 3, ...; it is exhausted iff every call fails; it makes at most R+2 calls |
| Resilience.FailureExact | src/kyc_agent/llm/resilience.py:42-76 | a recorded failure repeats what the call raised, and says so if it was the fallback's |
| Resilience.RunResilient | src/kyc_agent/llm/resilience.py:27-76 | the loop gives the specified value and failures for any behaviour of the callables, makes exactly the calls it accounts for, and tries the fallback only after all 1+R primary attempts |
| Channels.MergeCountsInPlace | src/kyc_agent/graph/state.py:25-29 | updating a copy key by key yields the key-wise sum over the union of keys |
| Channels.MergeCountsAlgebra | src/kyc_agent/graph/state.py:25-48 | merging is commutative and associative with the empty map as unit |
| Text.NormalizedSlice | src/kyc_agent/llm/fake.py:199-203 | if a value is a contiguous slice of a text, its normal form is a substring of the text's normal form, for any case folding and any whitespace |
| Text.Strip | src/kyc_agent/llm/fake.py:104-111 | a stripped value is a slice of the original that neither begins nor ends with whitespace, empty iff all was whitespace |
| Text.StripExact | src/kyc_agent/llm/fake.py:104-111 | stripping takes off whitespace at the ends and nothing else |
| Text.NormalizeExact | src/kyc_agent/rules/validation.py:39-40 | a normalised text has the folded text's characters but for the whitespace, and single spaces between its words |
| Text.CollapseKeepsWords | src/kyc_agent/rules/validation.py:39-40 | characters of one word stay together, and words stay apart by a space |
| Dates.DateRoundTrip | src/kyc_agent/llm/fake.py:87-101 | for every valid date of years 1 to 9999 the dotted and the ISO spelling both parse to the ISO string, so parsing is idempotent |
| Dates.ParseDateExact | src/kyc_agent/llm/fake.py:87-101 | a string parses iff, stripped, it is the ISO or the dotted spelling of a valid date; impossible dates and everything else are rejected |
| Dates.IsoInjective | src/kyc_agent/rules/validation.py:215-222 | different dates have different ISO strings |
| Dates.ValidExact | src/kyc_agent/llm/fake.py:97-100 | which dates exist: the lengths of the months, and the leap years |
| Dates.SpellingsExact | src/kyc_agent/llm/fake.py:87-101 | the digits of both spellings are those of year, month and day, each in its place |
| ValidationRules.CheckPackageCompleteness | src/kyc_agent/rules/validation.py:47-57 | the flag is raised iff a required document type is missing |
| ValidationRules.CheckExtractionCompleteness | src/kyc_agent/rules/validation.py:170-184 | the loop raises one warning per missing required field, and none iff none is missing |
| ValidationRules.ValidateDocument | src/kyc_agent/rules/validation.py:198-262 | one turn of the loop contributes the document's verdict, or raises |
| ValidationRules.FlagsExact | src/kyc_agent/rules/validation.py:60-262 | exactly which flags a document draws, each condition written out: similarity against which threshold, normal forms that differ, an expiry strictly before today, a needed field that is absent or empty |
| ValidationRules.FlagsCounted | src/kyc_agent/rules/validation.py:170-262 | how many: one for each needed field it lacks and one for each rule that finds something |
| ValidationRules.ChecksExact | src/kyc_agent/rules/validation.py:70-167 | exactly which checks are recorded, what they compare, when they match and when they are critical |
| ValidationRules.RaisesExact | src/kyc_agent/rules/validation.py:224-225 | the rules raise iff a readable identity document has an expiry date that is neither empty nor an ISO date |
| ValidationRules.RunValidationRules | src/kyc_agent/rules/validation.py:187-262 | the pass yields the concatenated verdicts of all documents, and raises iff some readable document's expiry date cannot be parsed |
| ValidationRules.ValidateConcat | src/kyc_agent/rules/validation.py:187-262 | the result on a concatenation of documents is the concatenation of the results |
| ValidationRules.CriticalChecksCounted | src/kyc_agent/rules/validation.py:70-140 | critical checks equal in number the CRITICAL name, birth-date, company and registration flags |
| ValidationRules.FailedChecksAreBacked | src/kyc_agent/rules/validation.py:70-184 | every check that does not match, a missing name included, has a flag of its rule on the same document |
| ValidationRules.FlagOrigin | src/kyc_agent/rules/validation.py:187-262 | a flag is in the report iff some document draws it |
| ValidationRules.ValidateShaped | src/kyc_agent/rules/validation.py:70-184 | which rules can be critical and which only warn |
| ValidationRules.BirthMismatchExact | src/kyc_agent/rules/validation.py:110-140 | DOB_MISMATCH appears iff both dates are present and the normalised extracted text is not the declared ISO date |
| ValidationRules.BirthMismatchOfDates | src/kyc_agent/rules/validation.py:215-222 | on an extracted ISO date, DOB_MISMATCH appears iff a date is declared and the two dates differ |
| Confidence.OverallConfidence | src/kyc_agent/graph/nodes.py:240-261 | the loops compute the specified confidence |
| Confidence.ConfidenceExact | src/kyc_agent/graph/nodes.py:240-261 | it is the worst field confidence of a readable document, or 0.3, capped at 0.4 and 0.5, less 0.05 for each of the first three warnings, rounded half to even to four places and kept in [0, 1] |
| Confidence.ConfidenceOfFourPlaces | src/kyc_agent/graph/nodes.py:240-261 | when the capped value has four places nothing is rounded away |
| Confidence.ConfidenceRange | src/kyc_agent/graph/nodes.py:240-261 | confidence is in [0, 1] and within 0.00005 of the unrounded clamped value |
| Confidence.ConfidenceMonotone | src/kyc_agent/graph/nodes.py:240-261 | adding flags, grounding flags or an unreadable document never raises confidence |
| Confidence.WarningsAloneNeverSinkAGoodExtraction | src/kyc_agent/graph/nodes.py:240-261 | with nothing ungrounded or unreadable, 0.75 is met iff the worst field confidence less the warnings is at least 0.74995: 0.89995 is enough under any warnings and needed under three |
| Confidence.Caps | src/kyc_agent/graph/nodes.py:240-261 | a grounding flag caps confidence at 0.4, an unreadable document at 0.5 |
| Confidence.OverallByMembers | src/kyc_agent/graph/nodes.py:240-261 | confidence does not depend on the order of documents or flags |
| RiskRules.EvaluateRiskRules | src/kyc_agent/rules/risk.py:36-133 | the steps append exactly the specified triggers, in order |
| RiskRules.TriggersExact | src/kyc_agent/rules/risk.py:36-133 | each rule is triggered iff its condition, written out in the terms of the case with the limit of each kind of customer, holds; no other rule ever is |
| RiskRules.TriggersInOrder | src/kyc_agent/rules/risk.py:36-133 | there is one critical trigger for each rule that is due and one for each unavailable registry, in the order the rules are tried |
| RiskRules.LevelExact | src/kyc_agent/rules/risk.py:136-147 | the level is HIGH iff a registry has a hit or does not answer, LOW iff nothing is triggered, and MEDIUM otherwise |
| RiskRules.SortedCodesExact | src/kyc_agent/rules/risk.py:177 | the reason codes are exactly the triggered rules |
| RiskRules.SortedCodesAscending | src/kyc_agent/rules/risk.py:177 | the reason codes are in alphabetical order, each once |
| RiskRules.EscalationRecall | src/kyc_agent/rules/risk.py:150-192 | the gate escalates iff the case is degraded or a trigger fired on a complete package, naming every trigger and the degradation last; approves iff there is no trigger, no degradation, no expired document and nothing missing; and a rejection says whether a document is missing or expired |
| Services.Extract | src/kyc_agent/llm/fake.py:138-183 | the extraction has the specified text fields; on a declaration of owners every owner the pattern picks, in order, unless a marker claims that field; an error iff that leaves nothing; and without markers its strings are copied from the text and its dates are spelled in it |
| Services.ExtractedExact | src/kyc_agent/llm/fake.py:138-170 | a field that a marker claims has its last marker's value; any other is reported iff the type of document has it and a label gives a value, which is the stripped match, or the date in ISO |
| Services.OverriddenExact | src/kyc_agent/llm/fake.py:166-169 | a marker's field is always reported, with its last marker's value; other fields keep what the text gave |
| Services.VerifyGrounding | src/kyc_agent/llm/fake.py:193-233 | one critical discrepancy per ungrounded string field and owner name: a document is flagged iff some non-date field or non-empty owner name is not a normalised substring of its text without markers |
| GlitchMarkers.FirstMarker | src/kyc_agent/llm/fake.py:196-199 | what remains of a text is what is before its first marker, a space, and what remains of the text behind it; its claims are that marker's and those behind it |
| GlitchMarkers.MarkerFound | src/kyc_agent/llm/fake.py:29 | a marker is found where it stands, with its name and its value |
| GlitchMarkers.BodyShape | src/kyc_agent/llm/fake.py:29 | what is found is a field name of lower-case letters and underscores, and a value without a closing bracket |
| Services.GlitchIsCaught | src/kyc_agent/llm/fake.py:163-233 | on a document with one marker, a value that the rest of the text does not say draws a discrepancy, unless it is about a date |
| Services.CopiedIsGrounded | src/kyc_agent/llm/fake.py:193-233 | what is copied from a text without markers is grounded in it |
| Services.ExtractThenVerify | src/kyc_agent/llm/fake.py:138-233 | the extractor's own output on a document without markers never draws a discrepancy, whatever slices the patterns pick |
| Services.CopiedExpiryParses | src/kyc_agent/rules/validation.py:224-225 | an expiry date extracted from a text without markers never makes the rules raise |
| Services.Classify | src/kyc_agent/llm/live.py:86-97 | the loop turns a model answer into the specified classifications |
| Services.ReconcileComplete | src/kyc_agent/llm/live.py:86-97 | any model answer becomes one classification per document, in order; a document it leaves out is UNKNOWN |
| Services.LastEntryCounts | src/kyc_agent/llm/live.py:86-97 | a document has the type and the confidence of the last entry for it, and without one is UNKNOWN with confidence 0 |
| Registries.Search | src/kyc_agent/tools/registries.py:69-87 | the search answers the sorted filtered hits, or raises iff the failure is injected |
| Registries.HitExact | src/kyc_agent/tools/registries.py:73-85 | a hit names the registry and the entry, with the similarity of query and name to four places |
| Registries.OneMoreEntry | src/kyc_agent/tools/registries.py:73-85 | an entry is a hit iff its similarity reaches the threshold, in the list's order |
| Registries.SortedExact | src/kyc_agent/tools/registries.py:86 | sorting is descending and stable: for each score the hits keep their order, and no hit is lost or added |
| Registries.EmptyAnswerExact | src/kyc_agent/tools/registries.py:69-87 | an answer is empty iff no entry reaches the threshold |
| Audit.InMemoryAuditSink.Emit | src/kyc_agent/audit/sink.py:37-38 | a write appends the event or raises and stores nothing; the store is always the emitted events less the failed writes |
| Audit.InMemoryAuditSink.Events | src/kyc_agent/audit/sink.py:40-41 | reading filters the store by case |
| Audit.SafeAuditSink.Emit | src/kyc_agent/audit/sink.py:50-60 | emitting always returns, whatever the write does |
| Audit.StoredSubsequence | src/kyc_agent/audit/sink.py:44-60 | the recorded trail is a subsequence of the emitted one, and all of it when no write fails |
| NodeMethods.RunRouter | src/kyc_agent/graph/nodes.py:70-115 | the step returns the specified command and emits exactly its events |
| NodeMethods.RunOrchestrator | src/kyc_agent/graph/nodes.py:118-181 | the same for partitioning, completeness and fan-out |
| NodeMethods.RunWorker | src/kyc_agent/graph/nodes.py:184-237 | the same for one extraction worker |
| NodeMethods.EvaluateDocuments | src/kyc_agent/graph/nodes.py:279-317 | the evaluator loop skips unreadable documents, collects flags and stops at the first document it cannot evaluate |
| NodeMethods.RunValidator | src/kyc_agent/graph/nodes.py:264-352 | the step returns the specified command and emits exactly its events |
| NodeMethods.RunScreen | src/kyc_agent/graph/nodes.py:355-392 | the loop screens name by name and stops at the first the registry does not answer for |
| NodeMethods.CollectNames | src/kyc_agent/graph/nodes.py:395-420 | the loops collect the specified names |
| NodeMethods.RunRiskScorer | src/kyc_agent/graph/nodes.py:423-511 | the step returns the specified assessment and emits exactly its events |
| NodeMethods.ReplayReview | src/kyc_agent/graph/nodes.py:588-600 | re-executing the loop over the stored resume values gives the fold `FirstValid` |
| NodeMethods.RunHumanReview | src/kyc_agent/graph/nodes.py:588-620 | only the execution that closes the case emits an event |
| Machine.CompleteHasWork | src/kyc_agent/graph/nodes.py:143-181 | the fan-out is never empty when the package is complete |
| Machine.GatheredChannels | src/kyc_agent/graph/state.py:39-48 | after any workers have finished the extractions are their results in the order they finished, and the replaced channels are as the orchestrator left them |
| Machine.GatheredFailures | src/kyc_agent/graph/state.py:39-48 | errors and degraded reasons are those of router and orchestrator followed by each worker's, in the order they finished |
| StepFacts.TaskResultExact | src/kyc_agent/graph/nodes.py:184-237 | a worker reports what the extractor first answered, and nothing but an error if it did not answer within its budget |
| StepFacts.ReasonsExact | src/kyc_agent/graph/nodes.py:84-226 | the reasons of a degradation are exactly the things that went wrong, each with its document |
| StepFacts.ReportExact | src/kyc_agent/graph/nodes.py:319-331 | the report holds the flags of the rules and of the evaluator, and its confidence is capped by the latter and lowered by the warnings of both |
| StepFacts.PassExact | src/kyc_agent/graph/nodes.py:355-392 | a pass collects the answers for one name after another, with an event for each, and stops with an error at the first name without one |
| StepFacts.AssessmentExact | src/kyc_agent/graph/nodes.py:434-509 | which hits the assessment lists where, from which names and registries, its level, and its rationale |
| StepFacts.OutageExact | src/kyc_agent/graph/nodes.py:434-450 | a registry is unavailable iff one of its passes is |
| StepFacts.NoReportNoConfidence | src/kyc_agent/graph/nodes.py:427-429 | without a report the confidence is 0 and there are no flags |
| StepFacts.LastDocumentCounts | src/kyc_agent/graph/nodes.py:124 | of several documents with one id the last one counts |
| StepFacts.ReportEventsExact | src/kyc_agent/graph/nodes.py:333-350 | a step reports each flag in order and then its completion |
| StepFacts.EvaluatedEvents | src/kyc_agent/graph/nodes.py:279-317 | the failures of an evaluation are reported, recovered from or not |
| StepFacts.OrchestratorEventsExact | src/kyc_agent/graph/nodes.py:131-170 | the orchestrator reports each document without a type, and then the missing documents or those it hands out |
| StepFacts.EndsReported | src/kyc_agent/graph/nodes.py:84-237 | router and workers report how they ended |
| StepFacts.GateReported | src/kyc_agent/graph/nodes.py:514-659 | gate, intake and the detour report once each, the detour with the last five errors |
| Machine.RunsKeepInv | src/kyc_agent/graph/builder.py:26-61 | at every point of every run the state is the one its position and the workers' order determine; the closing decision is the system's or a reviewer's with the system's codes |
| Progress.StepsFollowEdges | src/kyc_agent/graph/builder.py:52-59 | every step goes along an edge of the graph or a command target |
| Progress.SuperstepBound | src/kyc_agent/config.py:49 | every invocation finishes or pauses within 9 supersteps |
| Progress.SuperstepsExact | src/kyc_agent/graph/builder.py:52-59 | a run that takes every step begins one superstep for each, and ends in the ninth |
| Progress.AutomaticStepsBounded | src/kyc_agent/graph/builder.py:52-59 | between reviews a run of N known documents takes at most 8+N steps |
| Progress.NeverStuck | src/kyc_agent/graph/builder.py:52-59 | a run that has not stopped has a next step, whichever worker goes next |
| Progress.RunsComplete | src/kyc_agent/graph/builder.py:52-59 | every run can be carried on to a pause or an end |
| Progress.OneExtractionEach | src/kyc_agent/graph/nodes.py:170-181 | when the validator starts every known document has exactly one extraction, in the order the workers finished |
| Progress.EveryScheduleRuns | src/kyc_agent/graph/nodes.py:170-181 | every order of the workers is the order of some run, which pauses or ends |
| Progress.TaskDocumentExists | src/kyc_agent/graph/nodes.py:124-177 | looking up a task's document by id never fails |
| Progress.MissingRiskExplained | src/kyc_agent/graph/nodes.py:514-539 | a missing risk assessment at the gate means an incomplete or a degraded case |
| Progress.RaisesExactly | src/kyc_agent/rules/validation.py:224-225 | a run raises iff the package is complete and some extracted expiry date cannot be parsed, so the asserts of the closing steps never fail |
| Witnesses.GlitchedExpiryExact | src/kyc_agent/llm/fake.py:166-169 | a marker for the expiry date makes the rules raise iff its value is not empty and not an ISO date |
| Witnesses.ExtractionThatRaises | src/kyc_agent/rules/validation.py:224-225 | the offline extractor gives such an extraction on a document with one marker, and a complete package with that document has a run that ends by raising |
| Gatekeeping.GateState | src/kyc_agent/graph/nodes.py:514-539 | what the gate finds: degradation, completeness, report and assessment, exactly |
| Gatekeeping.OutcomeExact | src/kyc_agent/rules/risk.py:150-192 | the system's outcome and codes by cases of what happened in the run |
| Gatekeeping.DegradationDecides | src/kyc_agent/graph/nodes.py:50-52 | a case is degraded iff the router or evaluator was exhausted, a document was UNKNOWN or an extraction has an error; a degraded case is never decided by the system |
| Gatekeeping.DegradationMonotone | src/kyc_agent/graph/state.py:39-48 | reasons, extractions, errors and events are only ever appended to |
| Gatekeeping.LeftOutDocumentEscalates | src/kyc_agent/llm/live.py:86-97 | every run in which the model's answer leaves out a document escalates, and only a human closes it |
| Gatekeeping.SystemApprovesExactly | src/kyc_agent/graph/nodes.py:355-539 | a finished run was approved by the system iff everything answered, nothing was unknown, missing, unreadable, expired or critically mismatched, confidence and volume were within limits, and every registry answer for every name was empty |
| Gatekeeping.RejectedExactly | src/kyc_agent/rules/risk.py:150-192 | the system rejects iff nothing went wrong and either a document is missing or one has expired and nothing else stands against the case; the code says which |
| Gatekeeping.CompleteExactly | src/kyc_agent/rules/validation.py:47-57 | a package is complete iff an individual gave an identity document and a proof of address, a business its registration and a declaration of owners |
| Gatekeeping.ApprovedFlagsAreWarnings | src/kyc_agent/rules/risk.py:36-192 | in an approved case every flag is a warning and nothing was ungrounded |
| Gatekeeping.CleanExact | src/kyc_agent/graph/nodes.py:355-392 | a pass is available and without hits iff for each name the first answer within the budget is empty |
| Schedules.SumOfSchedule | src/kyc_agent/graph/state.py:39-48 | a sum over the tasks is the same for every schedule |
| Schedules.NamesExact | src/kyc_agent/graph/nodes.py:395-420 | exactly which names are screened: the applicant's and those some readable document gives |
| Schedules.ScheduleIndependent | src/kyc_agent/graph/nodes.py:184-465 | for any two orders of the workers the system's outcome, the risk level and the confidence are equal even if registries fail; the reason codes are equal iff the registry passes find hits of the same kinds, each kind being found iff a name with hits comes before the first without an answer |
| Schedules.SteadyCodes | src/kyc_agent/graph/nodes.py:355-465 | the codes do not depend on the order as long as in no pass one name has hits while another gets no answer, so neither when all registries answer nor when one is wholly down |
| Schedules.PassFindsExactly | src/kyc_agent/graph/nodes.py:355-392 | a pass finds something iff a name with hits comes before the first one the registry does not answer for |
| Schedules.CodesTellHits | src/kyc_agent/rules/risk.py:36-180 | on evidence that differs at most in its hits the codes are equal iff the kinds of hits are |
| Witnesses.OrderChangesCodes | src/kyc_agent/graph/nodes.py:355-392 | two runs on one package with the same answers, differing in the order of two workers, whose reason codes differ |
| EvaluatorEffect.EvaluatorOnlyEscalates | src/kyc_agent/graph/nodes.py:279-352 | what escalates without the evaluator escalates with it, exhaustion included; what is approved with it is approved without it |
| EvaluatorEffect.EvaluatorOnlyEscalatesRuns | src/kyc_agent/graph/nodes.py:279-352 | the same for any two whole runs |
| EvaluatorEffect.SilentEvaluatorChangesNothing | src/kyc_agent/graph/nodes.py:279-352 | an evaluator that answers and finds nothing leaves the decision as it is without one |
| EvaluatorEffect.FlaggedExactly | src/kyc_agent/llm/fake.py:193-233 | the case carries a discrepancy iff some readable extraction claims something the text without markers does not say |
| EvaluatorEffect.DiscrepancyEscalates | src/kyc_agent/rules/risk.py:97-121 | a discrepancy caps confidence at 0.4, fires CRITICAL_MISMATCH, and LOW_CONFIDENCE for thresholds above 0.4, and escalates |
| EvaluatorEffect.FabricationEscalates | src/kyc_agent/graph/nodes.py:279-352 | a run with ungrounded data escalates, whether the evaluator finds it or fails |
| Accounting.RetryConservation | src/kyc_agent/graph/nodes.py:92-115 | in every run each retry count is the step's entries in `errors` plus its successes, and for router and workers the calls made |
| Accounting.CountsAnyOrder | src/kyc_agent/graph/nodes.py:211-222 | the counts after fan-in do not depend on the order |
| Accounting.OwnRetryCount | src/kyc_agent/graph/nodes.py:211-222 | with unique ids each worker's count is its own calls, between 1 and R+2 |
| CallBounds.NamesInFirstOccurrenceOrder | src/kyc_agent/graph/nodes.py:395-420 | each list holds the names mentioned, each once, in the order of first occurrence, across the documents and inside each |
| CallBounds.RegistryCallsBounded | src/kyc_agent/graph/nodes.py:355-443 | a run makes at most (R+1)(2P+C+2O) registry calls, none before the risk scorer |
| CallBounds.ServiceCallsBounded | src/kyc_agent/llm/resilience.py:42-62 | a run makes at most (R+2)(2N+2) calls to model services |
| Replay.FirstValidExact | src/kyc_agent/graph/nodes.py:588-600 | the first valid value closes the case whatever follows; without one the node interrupts with the errors of the last value |
| Replay.ValidReviewExact | src/kyc_agent/schemas/decisions.py:104-109 | which resume values are valid |
| Replay.InvalidReviewsOnlyWait | src/kyc_agent/graph/nodes.py:588-600 | any number of invalid reviews changes nothing and emits nothing |
| Replay.ClosesAtFirstValidReview | src/kyc_agent/graph/nodes.py:602-620 | the first valid review closes the case with its outcome, its reviewer and the system's codes, and emits `human_decision` once |
| Replay.ClosedForGood | src/kyc_agent/graph/nodes.py:602-644 | once a case is closed its decision is final: no continuation of any run takes a further review, and at most finalising is left |
| Trails.TrailEnds | src/kyc_agent/graph/nodes.py:542-644 | a finished run's trail ends with one event that records the final decision, by whoever made it, and one `case_completed`, and has neither before |
| Trails.RecordedExactly | src/kyc_agent/audit/sink.py:44-60 | the decision of a finished run is in its recorded trail iff the write before the last succeeded, and `case_completed` iff the last did |
| Noninterference.NarratorDecidesNothing | src/kyc_agent/graph/nodes.py:467-480 | with any two narrators a run ends in the same state but for the rationale, with the same events |
| Runner.TakeStep | src/kyc_agent/graph/builder.py:26-61 | a step carried out has the specified effect and emits exactly its events |
| Runner.Run | src/kyc_agent/audit/sink.py:44-60 | a run carried out ends in the same state for every pattern of failing writes, and stores its events less those; its decision is stored iff the write before the last succeeded |
| EventStreams.FinalIsOver | src/kyc_agent/api/service.py:113-115 | a case with a final status has no step left to take |
| EventStreams.StepEventsOfCase | src/kyc_agent/graph/nodes.py:623-644 | a step of a run emits events of its own case only |
| EventStreams.FinalLog | src/kyc_agent/graph/nodes.py:623-644 | the log of a case with a final status is its run's events less the failed writes, and ends in `case_completed` iff that write succeeded |
| EventStreams.EventStream.Deliver | src/kyc_agent/api/main.py:126-137 | while runs write, what was delivered is at every step the start of the case's log |
| EventStreams.EventStream.Poll | src/kyc_agent/api/main.py:125-144 | a turn ends the stream only when the case is finished and all that is recorded of its run was delivered, and always when the case was finished before it |
| EventStreams.EventStream.Run | src/kyc_agent/api/main.py:123-144 | a stream that returns because the case is finished delivered all that is recorded of its run; no gap and no repetition otherwise |
| EventStreams.EventStream.Later | src/kyc_agent/api/main.py:138-141 | nothing is added to that log afterwards, whatever else goes on |
| EventStreams.Service.Elapse | src/kyc_agent/api/main.py:123-144 | runs that advance by the machine's steps, each event written before the step takes effect, only ever lengthen logs, and leave a finished case and its log as they are |
| Cases.StatusOfRuns | src/kyc_agent/api/service.py:113-115 | in every run the status is COMPLETED iff the run is over and AWAITING_HUMAN_REVIEW whenever it waits; FAILED never occurs |
| Cases.ResponsesAreTruthful | src/kyc_agent/api/service.py:70-92 | a response says finished iff a final decision other than ESCALATE stands, asks for a review iff the run waits for one, with the codes, the recommendation and the errors of the last review, and otherwise reports the state |
| Cases.ReviewFinalizes | src/kyc_agent/api/service.py:94-107 | one review closes a waiting case and changes nothing but decision and status |
| Cases.CaseService.Checkpoint | src/kyc_agent/api/service.py:52-68 | a background run is checkpointed after each superstep of the machine, all workers sharing one, and its task is dropped when it stops |
| Cases.CaseService.Status | src/kyc_agent/api/service.py:70-92 | not found iff neither stored nor running; otherwise a truthful response |
| Cases.CaseService.Review | src/kyc_agent/api/service.py:94-107 | not found, not awaiting, or closed with the reviewer's decision; errors and other cases leave the store alone |
| Cases.CaseService.IsFinished | src/kyc_agent/api/service.py:113-115 | true iff the run is over |

## Left out

- Model providers, prompts, settings loading, HTTP routes, PostgreSQL, the checkpointer and the inside of the graph engine: supersteps, additive reducers and re-execution of an interrupted node are taken as given.
- `SequenceMatcher.ratio`, `str.casefold`, `str.split` whitespace and `date.fromisoformat` are arbitrary functions of a `Library` value; casefold maps each character by itself.
- The regular expressions for labels and owners: an arbitrary choice of slices of the text. The marker expression is modelled exactly.
- The offline router's keyword table, and the other halves of `live.py`: their answers are oracles.
- Floating point: confidences, scores and volumes are reals, with rounding half to even to four places written out.
- Free text (`details`, rationales other than narrated or summarised, evaluator notes), timestamps, log lines and the parts of event payloads that only copy state.
- Extracted fields that are neither strings nor a list of owners; owners are represented by their names, and an extraction's id and type are those of its task, as both extractors return them.
- Keys of `field_confidence`: only its values matter to the formula.
- `retry_counts` of an evaluator that succeeded and of the risk step: the program records none, so `Accounting.RetryConservation` claims calls made only for router and workers.
- Concurrent reviews of one case: check and resume are one atomic step here.
- The FAILED status and the promise that a case finalises only with a recorded decision: no code sets the one or enforces the other.
- The registry's random number generator: whether a search fails is a parameter.
- Cases.CaseService.Submit: case ids are fresh by assumption; the program draws random ones.
- EventStreams.EventStream.Run: the client leaves after some finite number of polls, which is arbitrary; an endless stream is covered up to each of its polls.
- EventStreams.Service.Elapse: the workers of one case are executed one after another, in any order; each emits one event, so the logs are those of concurrent workers.
- CallBounds.RegistryCallsBounded: counted against the names found in the extractions of the run, as the program collects them.

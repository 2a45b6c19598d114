/** What the steps put into the state and the trail, written out in terms of what the services
    answer. */
module StepFacts {
  import opened Schemas
  import opened Resilience
  import opened Audit
  import opened Channels
  import opened RiskRules
  import opened Nodes
  import opened Machine
  import opened Gatekeeping
  import Confidence
  import Progress

  // --- workers ---

  /** What a worker reports of its document is what the extractor first answered, and nothing
      but an error if it did not answer within its budget. */
  lemma TaskResultExact(w: World, inp: Inputs, i: nat)
    ensures forall x :: FirstAnswer(w.extractor(i), inp.settings.maxStepRetries + 2, x) ==>
              TaskResult(w, inp, i)
              == ExtractionResult(Task(w, inp, i).id, Task(w, inp, i).docType, x.text, x.owners, x.confidences, x.error)
    ensures !Answers(w.extractor(i), inp.settings.maxStepRetries + 2) ==>
              var e := TaskResult(w, inp, i);
              && e.id == Task(w, inp, i).id && e.docType == Task(w, inp, i).docType
              && e.error.Some? && e.text == map[] && e.owners == [] && e.confidences == []
  {
    RetryAnswers(WorkerStep(Task(w, inp, i).id), w.extractor(i), inp.settings.maxStepRetries, true);
  }

  // --- why a case is degraded ---

  /** Each reason says what happened. */
  ghost predicate Explains(w: World, inp: Inputs, order: seq<nat>, r: DegradedReason) {
    match r
    case RouterFailed => !Answers(w.router, inp.settings.maxStepRetries + 2)
    case UnclassifiableDocument(id) =>
      exists c :: c in Classified(w, inp) && c.docType == UnknownType && c.id == id
    case ExtractionFailed(id) => exists i :: i in order && FailsFor(w, inp, i, id)
    case UnreadableDocument(id, error) => exists i :: i in order && UnreadableFor(w, inp, i, id, error)
    case ValidatorFailed =>
      Routed(w, inp) && Complete(w, inp) && !EvaluatorAnswers(w, inp, Results(w, inp, order))
  }

  ghost predicate FailsFor(w: World, inp: Inputs, i: nat, id: string) {
    Task(w, inp, i).id == id && !Answers(w.extractor(i), inp.settings.maxStepRetries + 2)
  }

  ghost predicate UnreadableFor(w: World, inp: Inputs, i: nat, id: string, error: string) {
    && Task(w, inp, i).id == id
    && exists x :: FirstAnswer(w.extractor(i), inp.settings.maxStepRetries + 2, x) && x.error == Some(error)
  }

  lemma {:induction false} UnknownReasonsExact(unknown: seq<ClassifiedDocument>, r: DegradedReason)
    ensures r in UnknownReasons(unknown) <==> exists c :: c in unknown && r == UnclassifiableDocument(c.id)
  {
    if unknown != [] {
      var front, last := unknown[..|unknown| - 1], unknown[|unknown| - 1];
      UnknownReasonsExact(front, r);
      assert unknown == front + [last];
      if r == UnclassifiableDocument(last.id) { assert last in unknown; }
      if r in UnknownReasons(front) {
        var c :| c in front && r == UnclassifiableDocument(c.id);
        assert c in unknown;
      }
    }
  }

  lemma WorkerReasonExact(w: World, inp: Inputs, i: nat, r: DegradedReason)
    ensures r in WorkerReasons(Task(w, inp, i), TaskTried(w, inp, i)) <==>
              || (r.ExtractionFailed? && FailsFor(w, inp, i, r.id))
              || (r.UnreadableDocument? && UnreadableFor(w, inp, i, r.id, r.error))
  {
    var t := TaskTried(w, inp, i);
    RetryAnswers(WorkerStep(Task(w, inp, i).id), w.extractor(i), inp.settings.maxStepRetries, true);
    if t.result.Some? {
      assert FirstAnswer(w.extractor(i), inp.settings.maxStepRetries + 2, t.result.value);
    }
  }

  lemma {:induction false} WorkersReasonsFrom(w: World, inp: Inputs, order: seq<nat>, r: DegradedReason) returns (i: nat)
    requires r in WorkersReasons(w, inp, order)
    ensures i in order && r in WorkerReasons(Task(w, inp, i), TaskTried(w, inp, i))
  {
    var front, last := order[..|order| - 1], order[|order| - 1];
    if r in WorkersReasons(w, inp, front) {
      i := WorkersReasonsFrom(w, inp, front, r);
    } else {
      i := last;
    }
  }

  lemma {:induction false} WorkersReasonsTo(w: World, inp: Inputs, order: seq<nat>, r: DegradedReason, i: nat)
    requires i in order && r in WorkerReasons(Task(w, inp, i), TaskTried(w, inp, i))
    ensures r in WorkersReasons(w, inp, order)
  {
    var front, last := order[..|order| - 1], order[|order| - 1];
    assert order == front + [last];
    if i != last {
      WorkersReasonsTo(w, inp, front, r, i);
    }
  }

  lemma WorkersReasonsSay(w: World, inp: Inputs, order: seq<nat>, r: DegradedReason)
    ensures r in WorkersReasons(w, inp, order) <==>
              (r.ExtractionFailed? || r.UnreadableDocument?) && Explains(w, inp, order, r)
  {
    if r in WorkersReasons(w, inp, order) {
      var i := WorkersReasonsFrom(w, inp, order, r);
      WorkerReasonExact(w, inp, i, r);
    }
    if r.ExtractionFailed? && Explains(w, inp, order, r) {
      var i :| i in order && FailsFor(w, inp, i, r.id);
      WorkerReasonExact(w, inp, i, r);
      WorkersReasonsTo(w, inp, order, r, i);
    }
    if r.UnreadableDocument? && Explains(w, inp, order, r) {
      var i :| i in order && UnreadableFor(w, inp, i, r.id, r.error);
      WorkerReasonExact(w, inp, i, r);
      WorkersReasonsTo(w, inp, order, r, i);
    }
  }

  lemma UnknownReasonsSay(w: World, inp: Inputs, order: seq<nat>, r: DegradedReason)
    ensures r in UnknownReasons(Unknown(Classified(w, inp))) <==>
              r.UnclassifiableDocument? && Explains(w, inp, order, r)
  {
    var classified := Classified(w, inp);
    UnknownReasonsExact(Unknown(classified), r);
    forall c
      ensures c in Unknown(classified) <==> c in classified && c.docType == UnknownType
    {
      Progress.KnownFrom(classified, c);
    }
  }

  lemma GatheredReasonsSay(w: World, inp: Inputs, order: seq<nat>, r: DegradedReason)
    requires Routed(w, inp)
    ensures r in Gathered(w, inp, order).degradedReasons <==>
              !r.RouterFailed? && !r.ValidatorFailed? && Explains(w, inp, order, r)
  {
    GatheredFailures(w, inp, order);
    WorkersReasonsSay(w, inp, order, r);
    UnknownReasonsSay(w, inp, order, r);
  }

  /** The reasons at the gate are exactly the things that went wrong. `order` lists the workers
      that ran, which are none if the package was incomplete or the router failed. */
  lemma ReasonsExact(w: World, inp: Inputs, order: seq<nat>, r: DegradedReason)
    requires Settled(w, inp, order) && (order == [] || (Routed(w, inp) && Complete(w, inp)))
    ensures r in AtTheGate(w, inp, order).degradedReasons <==> Explains(w, inp, order, r)
  {
    RetryAnswers(RouterStep, w.router, inp.settings.maxStepRetries, true);
    RouterChannels(w, inp);
    if Routed(w, inp) && Complete(w, inp) {
      ValidatedReasons(w, inp, order, r);
    } else if Routed(w, inp) {
      GatheredReasonsSay(w, inp, [], r);
    } else {
      assert Classified(w, inp) == [];
    }
  }

  lemma ReasonsAtTheGate(w: World, inp: Inputs, order: seq<nat>)
    requires Settled(w, inp, order) && Routed(w, inp) && Complete(w, inp)
    ensures AtTheGate(w, inp, order).degradedReasons
            == Gathered(w, inp, order).degradedReasons + if EvaluatorFailed(w, inp, order) then [ValidatorFailed] else []
  {
    ValidatedChannels(w, inp, order);
    if Assessed(w, inp, order) {
      AssessedState(w, inp, order);
    }
  }

  lemma ValidatedReasons(w: World, inp: Inputs, order: seq<nat>, r: DegradedReason)
    requires Settled(w, inp, order) && Routed(w, inp) && Complete(w, inp)
    ensures r in AtTheGate(w, inp, order).degradedReasons <==> Explains(w, inp, order, r)
  {
    RetryAnswers(RouterStep, w.router, inp.settings.maxStepRetries, true);
    EvaluatorAnswersExact(w, inp, Results(w, inp, order));
    GatheredReasonsSay(w, inp, order, r);
    ReasonsAtTheGate(w, inp, order);
  }

  // --- the report ---

  /** The report holds the flags of the rules and then those of the evaluator, and its
      confidence is that of the extractions, capped if the evaluator found anything, less all
      warnings. */
  lemma ReportExact(w: World, inp: Inputs, es: seq<ExtractionResult>, worst: real, capped: real) returns (n: int)
    requires Confidence.IsWorst(es, worst)
    requires Confidence.IsCapped(worst, Evaluate(w, inp, es).flags != [], exists e :: e in es && e.error.Some?, capped)
    ensures var r := Report(w, inp, es);
            var warnings := Confidence.Warnings(RuleVerdict(w, inp, es).flags) + Confidence.Warnings(Evaluate(w, inp, es).flags);
            && r.checks == RuleVerdict(w, inp, es).checks
            && r.flags == RuleVerdict(w, inp, es).flags + Evaluate(w, inp, es).flags
            && Confidence.Nearest(Confidence.LessWarnings(capped, warnings), n)
            && r.confidence == if n < 0 then 0.0 else if n > 10000 then 1.0 else n as real / 10000.0
  {
    var rules, grounding := RuleVerdict(w, inp, es).flags, Evaluate(w, inp, es).flags;
    Confidence.WarningsConcat(rules, grounding);
    n := Confidence.ConfidenceExact(es, grounding, rules + grounding, worst, capped);
  }

  // --- screening ---

  /** The hits of names that were answered, one name after another. */
  function Joined(answers: seq<seq<RegistryHit>>): seq<RegistryHit> {
    if answers == [] then [] else Joined(answers[..|answers| - 1]) + answers[|answers| - 1]
  }

  /** The registry first answers these for the first names. */
  ghost predicate FirstAnswers(
    w: World, inp: Inputs, s: Screening, names: seq<string>, answers: seq<seq<RegistryHit>>)
  {
    && |answers| <= |names|
    && forall i :: 0 <= i < |answers| ==>
         FirstAnswer(w.search(s, i, names[i]), inp.settings.maxStepRetries + 1, answers[i])
  }

  lemma {:induction false} AnsweredHits(
    w: World, inp: Inputs, s: Screening, names: seq<string>, answers: seq<seq<RegistryHit>>, n: nat)
    requires FirstAnswers(w, inp, s, names, answers) && n <= |answers|
    ensures ScreenUpTo(w, inp, s, names, n).available
    ensures ScreenUpTo(w, inp, s, names, n).hits == Joined(answers[..n])
    ensures |ScreenUpTo(w, inp, s, names, n).events| == n
    ensures forall i :: 0 <= i < n ==>
              ScreenUpTo(w, inp, s, names, n).events[i]
              == AuditEvent(inp.caseId, RiskNode, RegistryChecked, ForName(RegistryOf(s), names[i], |answers[i]|))
  {
    if n > 0 {
      AnsweredHits(w, inp, s, names, answers, n - 1);
      RetryAnswers(ScreeningStep(RegistryOf(s)), w.search(s, n - 1, names[n - 1]), inp.settings.maxStepRetries, false);
      assert answers[..n][..n - 1] == answers[..n - 1];
    }
  }

  lemma {:induction false} OutageKeeps(w: World, inp: Inputs, s: Screening, names: seq<string>, k: nat, n: nat)
    requires k <= n <= |names| && !ScreenUpTo(w, inp, s, names, k).available
    ensures ScreenUpTo(w, inp, s, names, n) == ScreenUpTo(w, inp, s, names, k)
    decreases n - k
  {
    if k < n { OutageKeeps(w, inp, s, names, k, n - 1); }
  }

  /** A pass collects what the registry answers for one name after another, with an event for
      each, and stops at the first name without an answer, with an error. */
  lemma PassExact(w: World, inp: Inputs, s: Screening, names: seq<string>, answers: seq<seq<RegistryHit>>)
    requires FirstAnswers(w, inp, s, names, answers)
    requires |answers| < |names| ==> !Answers(w.search(s, |answers|, names[|answers|]), inp.settings.maxStepRetries + 1)
    ensures var r := Screen(w, inp, s, names);
            && r.hits == Joined(answers)
            && (r.available <==> |answers| == |names|)
            && |r.events| == |answers| + One(|answers| < |names|)
            && (forall i :: 0 <= i < |answers| ==>
                  r.events[i]
                  == AuditEvent(inp.caseId, RiskNode, RegistryChecked, ForName(RegistryOf(s), names[i], |answers[i]|)))
            && (|answers| < |names| ==> r.events[|answers|].kind == ErrorEvent)
  {
    var n := |answers|;
    AnsweredHits(w, inp, s, names, answers, n);
    assert answers[..n] == answers;
    if n < |names| {
      RetryAnswers(ScreeningStep(RegistryOf(s)), w.search(s, n, names[n]), inp.settings.maxStepRetries, false);
      OutageKeeps(w, inp, s, names, n + 1, |names|);
    }
  }

  // --- the assessment ---

  /** The assessment of a case: persons and companies are screened for sanctions, persons for
      political exposure, owners for both; the hits on owners are listed with those of the PEP
      registry; and the rationale is the narrator's, or a summary if it fails. */
  lemma AssessmentExact(w: World, inp: Inputs, order: seq<nat>)
    requires Settled(w, inp, order) && Assessed(w, inp, order)
    ensures AtTheGate(w, inp, order).risk.Some?
    ensures var risk, n := AtTheGate(w, inp, order).risk.value, ScreeningNames(inp, Results(w, inp, order));
            && risk.sanctionsHits == Screen(w, inp, SanctionsMain, n.persons + n.companies).hits
            && risk.pepHits == Screen(w, inp, PepMain, n.persons).hits
                               + (Screen(w, inp, SanctionsOwners, n.owners).hits + Screen(w, inp, PepOwners, n.owners).hits)
            && risk.level == LevelOf(risk.triggers)
            && (forall text :: FirstAnswer(w.narrator, inp.settings.maxStepRetries + 2, text) ==> risk.rationale == Narrated(text))
            && (!Answers(w.narrator, inp.settings.maxStepRetries + 2) ==> risk.rationale == Summary(risk.triggers))
  {
    AssessedState(w, inp, order);
    RetryAnswers(NarratorStep, w.narrator, inp.settings.maxStepRetries, true);
  }

  /** Without a report there is no confidence, and no flag. */
  lemma NoReportNoConfidence(inp: Inputs, s: Screenings)
    ensures Triggered(Triggers(inp.settings, EvidenceOf(inp, None, s)), LOW_CONFIDENCE) <==> inp.settings.confidence > 0.0
    ensures !Triggered(Triggers(inp.settings, EvidenceOf(inp, None, s)), CRITICAL_MISMATCH)
  {
    TriggersExact(inp.settings, EvidenceOf(inp, None, s), LOW_CONFIDENCE);
    TriggersExact(inp.settings, EvidenceOf(inp, None, s), CRITICAL_MISMATCH);
  }

  /** A registry counts as unavailable if one of its passes is. */
  lemma OutageExact(w: World, inp: Inputs, n: Names, registry: Registry)
    ensures registry in Unavailable(ScreenAll(w, inp, n)) <==>
              if registry == Sanctions then
                !Screen(w, inp, SanctionsMain, n.persons + n.companies).available || !Screen(w, inp, SanctionsOwners, n.owners).available
              else !Screen(w, inp, PepMain, n.persons).available || !Screen(w, inp, PepOwners, n.owners).available
    ensures RegistryOf(SanctionsMain) == RegistryOf(SanctionsOwners) == Sanctions
    ensures RegistryOf(PepMain) == RegistryOf(PepOwners) == Pep
  {
  }

  // --- what is reported to the trail ---

  /** Each flag is reported by an event, in order, and then the step's completion. */
  lemma {:induction false} ReportEventsExact(inp: Inputs, node: NodeName, flags: seq<RuleFlag>)
    ensures |FlagEvents(inp, node, flags)| == |flags|
    ensures forall k :: 0 <= k < |flags| ==>
              FlagEvents(inp, node, flags)[k] == AuditEvent(inp.caseId, node, RuleTriggered, ForRule(flags[k].rule))
    ensures ReportEvents(inp, node, flags)[|flags|] == AuditEvent(inp.caseId, node, NodeCompleted, NoPayload)
    ensures |ReportEvents(inp, node, flags)| == |flags| + 1
  {
    if flags != [] {
      ReportEventsExact(inp, node, flags[..|flags| - 1]);
    }
  }

  lemma EvaluatedEvents(w: World, inp: Inputs, es: seq<ExtractionResult>, n: nat)
    requires n < |es|
    ensures var was, now := EvaluateUpTo(w, inp, es, n), EvaluateUpTo(w, inp, es, n + 1);
            now.events == was.events
              + if was.failure.None? && es[n].error.None? && Evaluating(w, inp, es, n).errors != []
                then [AuditEvent(inp.caseId, ValidatorNode, ErrorEvent, ForErrors(Evaluating(w, inp, es, n).errors))] else []
  {
    RetryIsFirstSuccess(ValidatorStep, w.evaluator(n, DocumentById(inp.package.documents, es[n].id), es[n]),
                        inp.settings.maxStepRetries, true);
  }

  /** Of several documents with one id the last one counts. */
  lemma {:induction false} LastDocumentCounts(documents: seq<InputDocument>, id: string, k: nat)
    requires k < |documents| && documents[k].id == id && forall j :: k < j < |documents| ==> documents[j].id != id
    ensures DocumentById(documents, id) == documents[k]
  {
    var last := |documents| - 1;
    if k < last {
      assert documents[last].id != id;
      LastDocumentCounts(documents[..last], id, k);
    }
  }

  lemma {:induction false} UnknownEventsExact(inp: Inputs, unknown: seq<ClassifiedDocument>)
    ensures |UnknownEvents(inp, unknown)| == |unknown|
    ensures forall k :: 0 <= k < |unknown| ==>
              UnknownEvents(inp, unknown)[k]
              == AuditEvent(inp.caseId, OrchestratorNode, RuleTriggered, ForRule(UNREADABLE_DOCUMENT))
  {
    if unknown != [] {
      UnknownEventsExact(inp, unknown[..|unknown| - 1]);
    }
  }

  lemma {:induction false} IdsExact(classified: seq<ClassifiedDocument>)
    ensures |Ids(classified)| == |classified|
    ensures forall k :: 0 <= k < |classified| ==> Ids(classified)[k] == classified[k].id
  {
    if classified != [] {
      IdsExact(classified[..|classified| - 1]);
    }
  }

  /** The orchestrator reports each document without a type, and then the rule of an incomplete
      package, or the documents it gives to workers. */
  lemma OrchestratorEventsExact(inp: Inputs, classified: seq<ClassifiedDocument>)
    ensures var events, n := Orchestrator(inp, classified).events, |Unknown(classified)|;
            && |events| == n + 1
            && (forall k :: 0 <= k < n ==>
                  events[k] == AuditEvent(inp.caseId, OrchestratorNode, RuleTriggered, ForRule(UNREADABLE_DOCUMENT)))
            && events[n]
               == if Completeness(inp, classified).Some? then
                    AuditEvent(inp.caseId, OrchestratorNode, RuleTriggered, ForRule(INCOMPLETE_PACKAGE))
                  else AuditEvent(inp.caseId, OrchestratorNode, NodeCompleted, ForDocuments(Ids(Known(classified))))
  {
    UnknownEventsExact(inp, Unknown(classified));
  }

  /** Every worker and the router report how they ended, with the failures if they gave up. */
  lemma EndsReported(w: World, inp: Inputs, known: seq<ClassifiedDocument>, pending: set<nat>, i: nat)
    requires i < |known|
    ensures Worker(w, inp, known, pending, i).events
            == [AuditEvent(inp.caseId, WorkerNode(known[i].id),
                  if Answers(w.extractor(i), inp.settings.maxStepRetries + 2) then NodeCompleted else ErrorEvent,
                  if Answers(w.extractor(i), inp.settings.maxStepRetries + 2) then NoPayload
                  else ForErrors(Extraction(w, inp, i, known[i]).errors))]
    ensures Router(w, inp).events
            == [AuditEvent(inp.caseId, RouterNode,
                  if Answers(w.router, inp.settings.maxStepRetries + 2) then NodeCompleted else ErrorEvent,
                  if Answers(w.router, inp.settings.maxStepRetries + 2) then ForDocuments(Ids(Classified(w, inp)))
                  else ForErrors(Routing(w, inp).errors))]
  {
    RetryAnswers(WorkerStep(known[i].id), w.extractor(i), inp.settings.maxStepRetries, true);
    RetryAnswers(RouterStep, w.router, inp.settings.maxStepRetries, true);
  }

  /** The gate reports its decision, and the detour the last five errors at most. */
  lemma GateReported(inp: Inputs, st: State)
    ensures Gate(inp, st).events == [AuditEvent(inp.caseId, GateNode, NodeCompleted, ForDecision(GateDecision(st)))]
    ensures Intake(inp).events == [AuditEvent(inp.caseId, IntakeNode, NodeCompleted, NoPayload)]
    ensures exists errors ::
              && HandleError(inp, st).events == [AuditEvent(inp.caseId, HandleErrorNode, ErrorEvent, ForErrors(errors))]
              && |errors| == (if |st.errors| < 5 then |st.errors| else 5)
              && errors == st.errors[|st.errors| - |errors|..]
  {
    var errors := LastFive(st.errors);
    assert |st.errors| <= 5 ==> st.errors[0..] == st.errors;
    assert HandleError(inp, st).events == [AuditEvent(inp.caseId, HandleErrorNode, ErrorEvent, ForErrors(errors))];
  }
}

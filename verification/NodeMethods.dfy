/** The steps that work by calling services, emitting events and growing local lists, as
    the program runs them, each against its specification in `Nodes`. */
module NodeMethods {
  import opened Schemas
  import opened Resilience
  import opened Audit
  import opened Channels
  import opened Services
  import opened RiskRules
  import opened Nodes
  import VR = ValidationRules
  import Confidence

  /** A step with a fallback: both callables act for the same call site. */
  method Attempt<T>(node: StepName, script: nat -> Reply<T>, maxRetries: nat) returns (t: Tried<T>)
    ensures t == Retry(node, script, maxRetries, true)
  {
    var primary := new Endpoint<T>(script, 1);
    var fallback := new Endpoint<T>(script, maxRetries + 2);
    t := RunResilient(node, primary, fallback, maxRetries);
  }

  method AttemptWithoutFallback<T>(node: StepName, script: nat -> Reply<T>, maxRetries: nat) returns (t: Tried<T>)
    ensures t == Retry(node, script, maxRetries, false)
  {
    var primary := new Endpoint<T>(script, 1);
    t := RunResilient(node, primary, null, maxRetries);
  }

  method RunRouter(w: World, inp: Inputs, audit: SafeAuditSink) returns (e: Effect)
    requires audit.Valid()
    modifies audit.inner
    ensures audit.Valid()
    ensures e == Router(w, inp)
    ensures audit.Emitted() == old(audit.Emitted()) + e.events
  {
    var t := Attempt(RouterStep, w.router, inp.settings.maxStepRetries);
    if t.result.None? {
      var event := Event(inp, RouterNode, ErrorEvent, ForErrors(t.errors));
      audit.Emit(event);
      return Effect(
        NO_UPDATE.(errors := t.errors, retryCounts := map[RouterStep := |t.errors|], degradedReasons := [RouterFailed]),
        AtHandleError, [event], t.Calls(), 0);
    }
    var classified := Classify(inp.package.documents, t.result.value);
    var event := Event(inp, RouterNode, NodeCompleted, ForDocuments(Ids(classified)));
    audit.Emit(event);
    return Effect(
      NO_UPDATE.(classified := Some(classified), errors := t.errors, retryCounts := map[RouterStep := |t.errors| + 1]),
      AtOrchestrator, [event], t.Calls(), 0);
  }

  method Partition(classified: seq<ClassifiedDocument>)
    returns (known: seq<ClassifiedDocument>, unknown: seq<ClassifiedDocument>)
    ensures known == Known(classified) && unknown == Unknown(classified)
  {
    known, unknown := [], [];
    for i := 0 to |classified|
      invariant known == Known(classified[..i]) && unknown == Unknown(classified[..i])
    {
      assert classified[..i + 1][..i] == classified[..i];
      if classified[i].docType == UnknownType {
        unknown := unknown + [classified[i]];
      } else {
        known := known + [classified[i]];
      }
    }
    assert classified[..|classified|] == classified;
  }

  method ReportUnknown(inp: Inputs, unknown: seq<ClassifiedDocument>, audit: SafeAuditSink)
    requires audit.Valid()
    modifies audit.inner
    ensures audit.Valid()
    ensures audit.Emitted() == old(audit.Emitted()) + UnknownEvents(inp, unknown)
  {
    for i := 0 to |unknown|
      invariant audit.Valid() && audit.Emitted() == old(audit.Emitted()) + UnknownEvents(inp, unknown[..i])
    {
      assert unknown[..i + 1][..i] == unknown[..i];
      var event := Event(inp, OrchestratorNode, RuleTriggered, ForRule(UNREADABLE_DOCUMENT));
      audit.Emit(event);
    }
    assert unknown[..|unknown|] == unknown;
  }

  method RunOrchestrator(inp: Inputs, classified: seq<ClassifiedDocument>, audit: SafeAuditSink) returns (e: Effect)
    requires audit.Valid()
    modifies audit.inner
    ensures audit.Valid()
    ensures e == Orchestrator(inp, classified)
    ensures audit.Emitted() == old(audit.Emitted()) + e.events
  {
    var known, unknown := Partition(classified);
    var reasons := UnknownReasons(unknown);
    ReportUnknown(inp, unknown, audit);
    var flag := VR.CheckPackageCompleteness(inp.package.customer, TypesOf(known));
    var update := NO_UPDATE.(degradedReasons := reasons, completeness := Some(flag));
    var last := if flag.Some? then Event(inp, OrchestratorNode, RuleTriggered, ForRule(flag.value.rule))
                else Event(inp, OrchestratorNode, NodeCompleted, ForDocuments(Ids(known)));
    audit.Emit(last);
    if flag.Some? {
      return Silent(update, AtGate, UnknownEvents(inp, unknown) + [last]);
    }
    return Silent(update, Extracting(Indices(|known|)), UnknownEvents(inp, unknown) + [last]);
  }

  method RunWorker(
    w: World, inp: Inputs, known: seq<ClassifiedDocument>, pending: set<nat>, i: nat, audit: SafeAuditSink)
    returns (e: Effect)
    requires i < |known|
    requires audit.Valid()
    modifies audit.inner
    ensures audit.Valid()
    ensures e == Worker(w, inp, known, pending, i)
    ensures audit.Emitted() == old(audit.Emitted()) + e.events
  {
    var task := known[i];
    var t := Attempt(WorkerStep(task.id), w.extractor(i), inp.settings.maxStepRetries);
    var left := pending - {i};
    var next := if left == {} then AtValidator else Extracting(left);
    var event := if t.result.None? then Event(inp, WorkerNode(task.id), ErrorEvent, ForErrors(t.errors))
                 else Event(inp, WorkerNode(task.id), NodeCompleted, NoPayload);
    audit.Emit(event);
    return Effect(WorkerUpdate(task, t), next, [event], t.Calls(), 0);
  }

  /** One evaluation: failures, recovered from or not, are emitted. */
  method EvaluateDocument(
    w: World, inp: Inputs, es: seq<ExtractionResult>, j: nat, before: Evaluation, audit: SafeAuditSink)
    returns (ev: Evaluation)
    requires j < |es| && before.failure.None?
    requires audit.Valid()
    modifies audit.inner
    ensures audit.Valid()
    ensures ev == EvaluateOne(inp, before, Evaluating(w, inp, es, j))
    ensures before.events <= ev.events
    ensures audit.Emitted() == old(audit.Emitted()) + ev.events[|before.events|..]
  {
    var document := DocumentById(inp.package.documents, es[j].id);
    var t := Attempt(ValidatorStep, w.evaluator(j, document, es[j]), inp.settings.maxStepRetries);
    RetryIsFirstSuccess(ValidatorStep, w.evaluator(j, document, es[j]), inp.settings.maxStepRetries, true);
    if t.errors != [] {
      audit.Emit(Event(inp, ValidatorNode, ErrorEvent, ForErrors(t.errors)));
    }
    ev := EvaluateOne(inp, before, t);
  }

  /** One turn of the evaluator loop. */
  method EvaluateNext(
    w: World, inp: Inputs, es: seq<ExtractionResult>, j: nat, before: Evaluation, audit: SafeAuditSink,
    ghost start: seq<AuditEvent>)
    returns (ev: Evaluation)
    requires j < |es| && before == EvaluateUpTo(w, inp, es, j) && before.failure.None?
    requires audit.Valid() && audit.Emitted() == start + before.events
    modifies audit.inner
    ensures ev == EvaluateUpTo(w, inp, es, j + 1)
    ensures audit.Valid() && audit.Emitted() == start + ev.events
  {
    if es[j].error.Some? {
      return before;
    }
    ev := EvaluateDocument(w, inp, es, j, before, audit);
    Associative(start, before.events, ev.events[|before.events|..]);
  }

  /** The evaluator loop, which stops at the first document it cannot evaluate. */
  method EvaluateDocuments(w: World, inp: Inputs, es: seq<ExtractionResult>, audit: SafeAuditSink)
    returns (ev: Evaluation)
    requires audit.Valid()
    modifies audit.inner
    ensures audit.Valid()
    ensures ev == EvaluateUpTo(w, inp, es, |es|)
    ensures audit.Emitted() == old(audit.Emitted()) + ev.events
  {
    ghost var start := audit.Emitted();
    ev := Evaluation([], None, [], 0);
    for j := 0 to |es|
      invariant ev == EvaluateUpTo(w, inp, es, j)
      invariant ev.failure.None?
      invariant audit.Valid() && audit.Emitted() == start + ev.events
    {
      ev := EvaluateNext(w, inp, es, j, ev, audit, start);
      if ev.failure.Some? {
        FailureStays(w, inp, es, j + 1);
        return;
      }
    }
  }

  lemma {:induction false} FailureStays(w: World, inp: Inputs, es: seq<ExtractionResult>, n: nat)
    requires n <= |es| && EvaluateUpTo(w, inp, es, n).failure.Some?
    ensures EvaluateUpTo(w, inp, es, |es|) == EvaluateUpTo(w, inp, es, n)
    decreases |es| - n
  {
    if n < |es| {
      FailureStays(w, inp, es, n + 1);
    }
  }

  method EmitFlags(inp: Inputs, node: NodeName, flags: seq<RuleFlag>, audit: SafeAuditSink)
    requires audit.Valid()
    modifies audit.inner
    ensures audit.Valid()
    ensures audit.Emitted() == old(audit.Emitted()) + FlagEvents(inp, node, flags)
  {
    for i := 0 to |flags|
      invariant audit.Valid() && audit.Emitted() == old(audit.Emitted()) + FlagEvents(inp, node, flags[..i])
    {
      assert flags[..i + 1][..i] == flags[..i];
      var event := Event(inp, node, RuleTriggered, ForRule(flags[i].rule));
      audit.Emit(event);
    }
    assert flags[..|flags|] == flags;
  }

  method EvaluateIfEnabled(w: World, inp: Inputs, es: seq<ExtractionResult>, audit: SafeAuditSink)
    returns (ev: Evaluation)
    requires audit.Valid()
    modifies audit.inner
    ensures audit.Valid()
    ensures ev == Evaluate(w, inp, es)
    ensures audit.Emitted() == old(audit.Emitted()) + ev.events
  {
    if inp.settings.evaluatorEnabled {
      ev := EvaluateDocuments(w, inp, es, audit);
    } else {
      ev := Evaluation([], None, [], 0);
    }
  }

  /** Emits what a report says: its flags, then the completion. */
  method EmitReport(inp: Inputs, node: NodeName, flags: seq<RuleFlag>, audit: SafeAuditSink)
    requires audit.Valid()
    modifies audit.inner
    ensures audit.Valid()
    ensures audit.Emitted() == old(audit.Emitted()) + ReportEvents(inp, node, flags)
  {
    var completed := Event(inp, node, NodeCompleted, NoPayload);
    EmitFlags(inp, node, flags, audit);
    audit.Emit(completed);
  }

  /** The report of a validator whose evaluator did not fail. */
  method MakeReport(
    w: World, inp: Inputs, es: seq<ExtractionResult>, verdict: VR.Verdict, ev: Evaluation, audit: SafeAuditSink)
    returns (report: ValidationReport)
    requires verdict == RuleVerdict(w, inp, es) && ev == Evaluate(w, inp, es)
    requires audit.Valid()
    modifies audit.inner
    ensures audit.Valid()
    ensures report == Report(w, inp, es)
    ensures audit.Emitted() == old(audit.Emitted()) + ReportEvents(inp, ValidatorNode, report.flags)
  {
    var flags := verdict.flags + ev.flags;
    var confidence := Confidence.OverallConfidence(es, ev.flags, flags);
    report := ValidationReport(verdict.checks, flags, confidence);
    EmitReport(inp, ValidatorNode, flags, audit);
  }

  method FinishValidation(
    w: World, inp: Inputs, es: seq<ExtractionResult>, verdict: VR.Verdict, ev: Evaluation, audit: SafeAuditSink)
    returns (e: Effect)
    requires verdict == RuleVerdict(w, inp, es) && ev == Evaluate(w, inp, es)
    requires audit.Valid()
    modifies audit.inner
    ensures audit.Valid()
    ensures e == if ev.failure.Some? then FailedValidation(ev) else CompletedValidation(inp, ev, Report(w, inp, es))
    ensures ev.events <= e.events
    ensures audit.Emitted() == old(audit.Emitted()) + e.events[|ev.events|..]
  {
    if ev.failure.Some? {
      return FailedValidation(ev);
    }
    var report := MakeReport(w, inp, es, verdict, ev, audit);
    e := CompletedValidation(inp, ev, report);
  }

  method RunValidator(w: World, inp: Inputs, es: seq<ExtractionResult>, audit: SafeAuditSink) returns (e: Effect)
    requires audit.Valid()
    modifies audit.inner
    ensures audit.Valid()
    ensures e == Validator(w, inp, es)
    ensures audit.Emitted() == old(audit.Emitted()) + e.events
  {
    ghost var start := audit.Emitted();
    var verdict := VR.RunValidationRules(w.lib, inp.settings, inp.package.applicant, es);
    if verdict.None? {
      e := Silent(NO_UPDATE, Crashed, []);
    } else {
      var ev := EvaluateIfEnabled(w, inp, es, audit);
      e := FinishValidation(w, inp, es, verdict.value, ev, audit);
      Associative(start, ev.events, e.events[|ev.events|..]);
    }
  }

  // --- risk scorer ---

  method CollectOwners(names: seq<string>, owners: seq<string>) returns (r: seq<string>)
    ensures r == AddOwners(names, owners)
  {
    r := names;
    for i := 0 to |owners|
      invariant r == AddOwners(names, owners[..i])
    {
      assert owners[..i + 1][..i] == owners[..i];
      if owners[i] != "" {
        r := Add(r, owners[i]);
      }
    }
    assert owners[..|owners|] == owners;
  }

  method CollectNames(inp: Inputs, es: seq<ExtractionResult>) returns (names: Names)
    ensures names == ScreeningNames(inp, es)
  {
    names := DeclaredNames(inp);
    for i := 0 to |es|
      invariant names == ScreeningNames(inp, es[..i])
    {
      assert es[..i + 1][..i] == es[..i];
      var e := es[i];
      if e.error.Some? {
        continue;
      }
      var persons, companies := names.persons, names.companies;
      if e.docType in {IdDocument, ProofOfAddress} && FullName in e.text {
        persons := Add(persons, e.text[FullName]);
      }
      if CompanyName in e.text {
        companies := Add(companies, e.text[CompanyName]);
      }
      var owners := CollectOwners(names.owners, e.owners);
      names := Names(persons, companies, owners);
    }
    assert es[..|es|] == es;
  }

  method RunSearch(w: World, inp: Inputs, s: Screening, i: nat, name: string, before: Screened, audit: SafeAuditSink)
    returns (after: Screened)
    requires audit.Valid()
    modifies audit.inner
    ensures audit.Valid()
    ensures after == ScreenOne(inp, s, name, before, Searching(w, inp, s, i, name))
    ensures before.events <= after.events
    ensures audit.Emitted() == old(audit.Emitted()) + after.events[|before.events|..]
  {
    var t := AttemptWithoutFallback(ScreeningStep(RegistryOf(s)), w.search(s, i, name), inp.settings.maxStepRetries);
    var event := if t.result.None? then Event(inp, RiskNode, ErrorEvent, ForErrors(t.errors))
                 else Event(inp, RiskNode, RegistryChecked, ForName(RegistryOf(s), name, |t.result.value|));
    audit.Emit(event);
    after := ScreenOne(inp, s, name, before, t);
  }

  /** One turn of the screening loop. */
  method ScreenNext(
    w: World, inp: Inputs, s: Screening, names: seq<string>, i: nat, before: Screened, audit: SafeAuditSink,
    ghost start: seq<AuditEvent>)
    returns (after: Screened)
    requires i < |names| && before == ScreenUpTo(w, inp, s, names, i) && before.available
    requires audit.Valid() && audit.Emitted() == start + before.events
    modifies audit.inner
    ensures after == ScreenUpTo(w, inp, s, names, i + 1)
    ensures audit.Valid() && audit.Emitted() == start + after.events
  {
    after := RunSearch(w, inp, s, i, names[i], before, audit);
    Associative(start, before.events, after.events[|before.events|..]);
  }

  /** `_screen`: name by name, stopping at the first one the registry does not answer for. */
  method RunScreen(w: World, inp: Inputs, s: Screening, names: seq<string>, audit: SafeAuditSink)
    returns (screened: Screened)
    requires audit.Valid()
    modifies audit.inner
    ensures audit.Valid()
    ensures screened == Screen(w, inp, s, names)
    ensures audit.Emitted() == old(audit.Emitted()) + screened.events
  {
    ghost var start := audit.Emitted();
    screened := Screened([], true, [], 0);
    for i := 0 to |names|
      invariant screened == ScreenUpTo(w, inp, s, names, i)
      invariant screened.available
      invariant audit.Valid() && audit.Emitted() == start + screened.events
    {
      screened := ScreenNext(w, inp, s, names, i, screened, audit, start);
      if !screened.available {
        OutageStays(w, inp, s, names, i + 1);
        return;
      }
    }
  }

  lemma {:induction false} OutageStays(w: World, inp: Inputs, s: Screening, names: seq<string>, n: nat)
    requires n <= |names| && !ScreenUpTo(w, inp, s, names, n).available
    ensures Screen(w, inp, s, names) == ScreenUpTo(w, inp, s, names, n)
    decreases |names| - n
  {
    if n < |names| {
      OutageStays(w, inp, s, names, n + 1);
    }
  }

  /** One list of names against one registry, then another list against another. */
  method RunTwoScreens(
    w: World, inp: Inputs, s: Screening, names: seq<string>, t: Screening, moreNames: seq<string>, audit: SafeAuditSink)
    returns (first: Screened, second: Screened)
    requires audit.Valid()
    modifies audit.inner
    ensures audit.Valid()
    ensures first == Screen(w, inp, s, names) && second == Screen(w, inp, t, moreNames)
    ensures audit.Emitted() == old(audit.Emitted()) + first.events + second.events
  {
    first := RunScreen(w, inp, s, names, audit);
    second := RunScreen(w, inp, t, moreNames, audit);
  }

  method RunScreenings(w: World, inp: Inputs, names: Names, audit: SafeAuditSink) returns (s: Screenings)
    requires audit.Valid()
    modifies audit.inner
    ensures audit.Valid()
    ensures s == ScreenAll(w, inp, names)
    ensures audit.Emitted() == old(audit.Emitted()) + ScreeningEvents(s)
  {
    var main, pep := RunTwoScreens(w, inp, SanctionsMain, names.persons + names.companies, PepMain, names.persons, audit);
    ghost var soFar := main.events + pep.events;
    var owners, ownersPep := Screened([], true, [], 0), Screened([], true, [], 0);
    if names.owners != [] {
      owners, ownersPep := RunTwoScreens(w, inp, SanctionsOwners, names.owners, PepOwners, names.owners, audit);
    }
    s := Screenings(main, pep, owners, ownersPep);
  }

  method RunAssess(w: World, inp: Inputs, e: Evidence) returns (risk: RiskAssessment, calls: nat)
    ensures risk == Assess(w, inp, e)
    ensures calls == Narrating(w, inp).Calls()
  {
    var triggers := EvaluateRiskRules(inp.settings, e);
    var t := Attempt(NarratorStep, w.narrator, inp.settings.maxStepRetries);
    calls := t.Calls();
    risk := RiskAssessment(LevelOf(triggers), triggers, e.sanctionsHits, e.pepHits + e.ownerHits,
      if t.result.Some? then Narrated(t.result.value) else Summary(triggers));
  }

  method RunRiskScorer(
    w: World, inp: Inputs, v: Option<ValidationReport>, es: seq<ExtractionResult>, audit: SafeAuditSink)
    returns (e: Effect)
    requires audit.Valid()
    modifies audit.inner
    ensures audit.Valid()
    ensures e == RiskScorer(w, inp, v, es)
    ensures audit.Emitted() == old(audit.Emitted()) + e.events
  {
    ghost var start := audit.Emitted();
    var names := CollectNames(inp, es);
    var s := RunScreenings(w, inp, names, audit);
    var risk, calls := RunAssess(w, inp, EvidenceOf(inp, v, s));
    EmitReport(inp, RiskNode, risk.triggers, audit);
    Associative(start, ScreeningEvents(s), ReportEvents(inp, RiskNode, risk.triggers));
    e := Scored(inp, s, risk, calls);
  }

  // --- human review ---

  /** One execution of the node over the stored resume values: interrupt number k returns
      stored value k at once, and the first interrupt without one suspends the case. */
  method ReplayReview(resumes: seq<ResumeValue>) returns (r: Replayed)
    ensures r == FirstValid(resumes)
  {
    var error: Option<nat> := None;
    var k := 0;
    while true
      invariant 0 <= k <= |resumes|
      invariant FirstValid(resumes[..k]) == Interrupted(error)
      decreases |resumes| - k
    {
      if k == |resumes| {
        assert resumes[..k] == resumes;
        return Interrupted(error);
      }
      var value := resumes[k];
      k := k + 1;
      assert resumes[..k][..k - 1] == resumes[..k - 1];
      if ValidReview(value) {
        ClosedStays(resumes, k);
        return Closed(ReviewOf(value));
      }
      error := Some(ValidationErrors(value));
    }
  }

  lemma {:induction false} ClosedStays(resumes: seq<ResumeValue>, k: nat)
    requires k <= |resumes| && FirstValid(resumes[..k]).Closed?
    ensures FirstValid(resumes) == FirstValid(resumes[..k])
    decreases |resumes| - k
  {
    if k < |resumes| {
      assert resumes[..k + 1][..k] == resumes[..k];
      ClosedStays(resumes, k + 1);
    } else {
      assert resumes[..k] == resumes;
    }
  }

  /** The event `human_decision` is emitted by the execution that closes the case, and by no
      other, however often the node is executed again. */
  method RunHumanReview(inp: Inputs, st: State, resumes: seq<ResumeValue>, audit: SafeAuditSink)
    returns (e: Effect)
    requires audit.Valid()
    modifies audit.inner
    ensures audit.Valid()
    ensures e == HumanReview(inp, st, resumes)
    ensures audit.Emitted() == old(audit.Emitted()) + e.events
  {
    var r := ReplayReview(resumes);
    if r.Interrupted? {
      return Silent(NO_UPDATE, AtHumanReview(resumes), []);
    }
    var d := HumanOutcome(r.human, st);
    var event := Event(inp, HumanReviewNode, HumanDecided, ForDecision(d));
    audit.Emit(event);
    return Silent(NO_UPDATE.(decision := Some(d)), AtFinalize, [event]);
  }
}

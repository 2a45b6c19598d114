/** The steps of the pipeline. Each is a function from the state to its effect: an update
    of the state, the step that follows, the audit events emitted, and the calls made. */
module Nodes {
  import opened Schemas
  import opened Text
  import opened Resilience
  import opened Audit
  import opened Channels
  import opened Services
  import opened RiskRules
  import VR = ValidationRules
  import Confidence

  // --- the outside world ---

  /** The four passes over the registries. */
  datatype Screening = SanctionsMain | PepMain | SanctionsOwners | PepOwners

  function RegistryOf(s: Screening): Registry {
    if s == SanctionsMain || s == SanctionsOwners then Sanctions else Pep
  }

  /** An extractor's answer, apart from the id and type it is given. */
  datatype Extracted = Extracted(
    text: map<Field, string>, owners: seq<string>, confidences: seq<real>, error: Option<string>)

  /** Everything the program does not control. Each call site of a run has its own script,
      from the attempt number to what that call does; a site is visited at most once in a
      run, so a service may answer anything, differently every time. The router's script
      gives the raw model answer. */
  datatype World = World(
    lib: Library,
    router: nat -> Reply<seq<Classification>>,
    extractor: nat -> (nat -> Reply<Extracted>),
    evaluator: (nat, InputDocument, ExtractionResult) -> (nat -> Reply<seq<RuleFlag>>),
    search: (Screening, nat, string) -> (nat -> Reply<seq<RegistryHit>>),
    narrator: nat -> Reply<string>)

  // --- control ---

  /** A resume value as it arrives. */
  datatype Json = Absent | Str(s: string) | OtherJson

  datatype ResumeValue = NotAnObject | Resume(outcome: Json, reviewer: Json, comment: Json)

  datatype Pc =
    | AtIntake
    | AtRouter
    | AtOrchestrator
    | Extracting(pending: set<nat>)
    | AtValidator
    | AtRiskScorer
    | AtHandleError
    | AtGate
    | AtAutoDecision
    | AtHumanReview(resumes: seq<ResumeValue>)
    | AtFinalize
    | Done
    | Crashed

  datatype Effect = Effect(
    update: Update, next: Pc, events: seq<AuditEvent>, serviceCalls: nat, registryCalls: nat)

  function Event(inp: Inputs, node: NodeName, kind: EventType, payload: Payload): AuditEvent {
    AuditEvent(inp.caseId, node, kind, payload)
  }

  function Silent(update: Update, next: Pc, events: seq<AuditEvent>): Effect {
    Effect(update, next, events, 0, 0)
  }

  lemma Associative<T>(a: seq<T>, b: seq<T>, c: seq<T>)
    ensures (a + b) + c == a + (b + c)
  {
  }

  // --- intake, router ---

  function Intake(inp: Inputs): Effect {
    Silent(NO_UPDATE.(status := Some(Processing)), AtRouter, [Event(inp, IntakeNode, NodeCompleted, NoPayload)])
  }

  function Routing(w: World, inp: Inputs): Tried<seq<Classification>> {
    Retry(RouterStep, w.router, inp.settings.maxStepRetries, true)
  }

  function Router(w: World, inp: Inputs): Effect {
    var t := Routing(w, inp);
    if t.result.None? then
      Effect(
        NO_UPDATE.(errors := t.errors, retryCounts := map[RouterStep := |t.errors|], degradedReasons := [RouterFailed]),
        AtHandleError, [Event(inp, RouterNode, ErrorEvent, ForErrors(t.errors))], t.Calls(), 0)
    else
      var classified := Reconcile(inp.package.documents, t.result.value);
      Effect(
        NO_UPDATE.(classified := Some(classified), errors := t.errors,
                   retryCounts := map[RouterStep := |t.errors| + 1]),
        AtOrchestrator, [Event(inp, RouterNode, NodeCompleted, ForDocuments(Ids(classified)))], t.Calls(), 0)
  }

  function Ids(classified: seq<ClassifiedDocument>): seq<string> {
    if classified == [] then []
    else Ids(classified[..|classified| - 1]) + [classified[|classified| - 1].id]
  }

  // --- orchestrator ---

  function Known(classified: seq<ClassifiedDocument>): seq<ClassifiedDocument> {
    if classified == [] then []
    else
      var last := classified[|classified| - 1];
      Known(classified[..|classified| - 1]) + if last.docType != UnknownType then [last] else []
  }

  function Unknown(classified: seq<ClassifiedDocument>): seq<ClassifiedDocument> {
    if classified == [] then []
    else
      var last := classified[|classified| - 1];
      Unknown(classified[..|classified| - 1]) + if last.docType == UnknownType then [last] else []
  }

  function UnknownReasons(unknown: seq<ClassifiedDocument>): (r: seq<DegradedReason>)
    ensures |r| == |unknown|
  {
    if unknown == [] then []
    else
      UnknownReasons(unknown[..|unknown| - 1]) + [UnclassifiableDocument(unknown[|unknown| - 1].id)]
  }

  function UnknownEvents(inp: Inputs, unknown: seq<ClassifiedDocument>): seq<AuditEvent> {
    if unknown == [] then []
    else
      UnknownEvents(inp, unknown[..|unknown| - 1])
      + [Event(inp, OrchestratorNode, RuleTriggered, ForRule(UNREADABLE_DOCUMENT))]
  }

  /** The fan-out: one task for each known document. */
  function Indices(n: nat): (r: set<nat>)
    ensures forall i: nat :: i in r <==> i < n
    ensures |r| == n
  {
    if n == 0 then {} else Indices(n - 1) + {n - 1}
  }

  function TypesOf(known: seq<ClassifiedDocument>): set<DocumentType> {
    set c | c in known :: c.docType
  }

  function Completeness(inp: Inputs, classified: seq<ClassifiedDocument>): Option<RuleFlag> {
    VR.CheckPackageCompleteness(inp.package.customer, TypesOf(Known(classified)))
  }

  function Orchestrator(inp: Inputs, classified: seq<ClassifiedDocument>): Effect {
    var known, unknown := Known(classified), Unknown(classified);
    var flag := Completeness(inp, classified);
    var update := NO_UPDATE.(degradedReasons := UnknownReasons(unknown), completeness := Some(flag));
    if flag.Some? then
      Silent(update, AtGate,
        UnknownEvents(inp, unknown) + [Event(inp, OrchestratorNode, RuleTriggered, ForRule(flag.value.rule))])
    else
      Silent(update, Extracting(Indices(|known|)),
        UnknownEvents(inp, unknown) + [Event(inp, OrchestratorNode, NodeCompleted, ForDocuments(Ids(known)))])
  }

  // --- extraction workers ---

  /** `docs_by_id[id]`: the last document with the id. */
  function DocumentById(documents: seq<InputDocument>, id: string): (d: InputDocument)
    ensures (exists x :: x in documents && x.id == id) ==> d in documents && d.id == id
  {
    if documents == [] then InputDocument(id, "")
    else
      var last := |documents| - 1;
      assert documents == documents[..last] + [documents[last]];
      if documents[last].id == id then documents[last] else DocumentById(documents[..last], id)
  }

  function Extraction(w: World, inp: Inputs, i: nat, task: ClassifiedDocument): Tried<Extracted> {
    Retry(WorkerStep(task.id), w.extractor(i), inp.settings.maxStepRetries, true)
  }

  function ResultOf(task: ClassifiedDocument, t: Tried<Extracted>): ExtractionResult {
    if t.result.None? then
      ExtractionResult(task.id, task.docType, map[], [], [], Some("extraction failed after retries and fallback"))
    else
      var x := t.result.value;
      ExtractionResult(task.id, task.docType, x.text, x.owners, x.confidences, x.error)
  }

  function WorkerReasons(task: ClassifiedDocument, t: Tried<Extracted>): seq<DegradedReason> {
    if t.result.None? then [ExtractionFailed(task.id)]
    else if t.result.value.error.Some? then [UnreadableDocument(task.id, t.result.value.error.value)]
    else []
  }

  function WorkerUpdate(task: ClassifiedDocument, t: Tried<Extracted>): Update {
    NO_UPDATE.(
      extractions := [ResultOf(task, t)],
      errors := t.errors,
      retryCounts := map[WorkerStep(task.id) := t.Calls()],
      degradedReasons := WorkerReasons(task, t))
  }

  /** One worker finishing while `pending` have not. */
  function Worker(w: World, inp: Inputs, known: seq<ClassifiedDocument>, pending: set<nat>, i: nat): Effect
    requires i < |known|
  {
    var task := known[i];
    var t := Extraction(w, inp, i, task);
    var left := pending - {i};
    Effect(
      WorkerUpdate(task, t),
      if left == {} then AtValidator else Extracting(left),
      [if t.result.None? then Event(inp, WorkerNode(task.id), ErrorEvent, ForErrors(t.errors))
       else Event(inp, WorkerNode(task.id), NodeCompleted, NoPayload)],
      t.Calls(), 0)
  }

  // --- validator ---

  /** What the evaluator did with the first documents: the flags it raised, the failures if
      it exhausted its retries, the events emitted, the calls made. */
  datatype Evaluation = Evaluation(
    flags: seq<RuleFlag>, failure: Option<seq<ProcessingError>>, events: seq<AuditEvent>, calls: nat)

  function Evaluating(w: World, inp: Inputs, es: seq<ExtractionResult>, j: nat): Tried<seq<RuleFlag>>
    requires j < |es|
  {
    Retry(ValidatorStep, w.evaluator(j, DocumentById(inp.package.documents, es[j].id), es[j]),
          inp.settings.maxStepRetries, true)
  }

  function EvaluateOne(inp: Inputs, before: Evaluation, t: Tried<seq<RuleFlag>>): Evaluation {
    if t.result.None? then
      Evaluation(before.flags, Some(t.errors),
        before.events + [Event(inp, ValidatorNode, ErrorEvent, ForErrors(t.errors))], before.calls + t.Calls())
    else
      Evaluation(before.flags + t.result.value, None,
        before.events + (if t.errors == [] then [] else [Event(inp, ValidatorNode, ErrorEvent, ForErrors(t.errors))]),
        before.calls + t.Calls())
  }

  function EvaluateUpTo(w: World, inp: Inputs, es: seq<ExtractionResult>, n: nat): Evaluation
    requires n <= |es|
  {
    if n == 0 then Evaluation([], None, [], 0)
    else
      var before := EvaluateUpTo(w, inp, es, n - 1);
      if before.failure.Some? || es[n - 1].error.Some? then before
      else EvaluateOne(inp, before, Evaluating(w, inp, es, n - 1))
  }

  function Evaluate(w: World, inp: Inputs, es: seq<ExtractionResult>): Evaluation {
    if inp.settings.evaluatorEnabled then EvaluateUpTo(w, inp, es, |es|) else Evaluation([], None, [], 0)
  }

  function FlagEvents(inp: Inputs, node: NodeName, flags: seq<RuleFlag>): seq<AuditEvent> {
    if flags == [] then []
    else
      FlagEvents(inp, node, flags[..|flags| - 1])
      + [Event(inp, node, RuleTriggered, ForRule(flags[|flags| - 1].rule))]
  }

  /** What a step that raises flags emits last: each flag, then its completion. */
  function ReportEvents(inp: Inputs, node: NodeName, flags: seq<RuleFlag>): seq<AuditEvent> {
    FlagEvents(inp, node, flags) + [Event(inp, node, NodeCompleted, NoPayload)]
  }

  function RuleVerdict(w: World, inp: Inputs, es: seq<ExtractionResult>): VR.Verdict {
    VR.Validate(w.lib, inp.settings, inp.package.applicant, es)
  }

  function AllFlags(w: World, inp: Inputs, es: seq<ExtractionResult>): seq<RuleFlag> {
    RuleVerdict(w, inp, es).flags + Evaluate(w, inp, es).flags
  }

  function Report(w: World, inp: Inputs, es: seq<ExtractionResult>): ValidationReport {
    var flags := AllFlags(w, inp, es);
    ValidationReport(RuleVerdict(w, inp, es).checks, flags,
                     Confidence.Overall(es, Evaluate(w, inp, es).flags, flags))
  }

  function FailedValidation(ev: Evaluation): Effect
    requires ev.failure.Some?
  {
    Effect(
      NO_UPDATE.(errors := ev.failure.value, retryCounts := map[ValidatorStep := |ev.failure.value|],
                 degradedReasons := [ValidatorFailed]),
      AtHandleError, ev.events, ev.calls, 0)
  }

  function CompletedValidation(inp: Inputs, ev: Evaluation, report: ValidationReport): Effect {
    Effect(NO_UPDATE.(validation := Some(report)), AtRiskScorer,
           ev.events + ReportEvents(inp, ValidatorNode, report.flags), ev.calls, 0)
  }

  function Validator(w: World, inp: Inputs, es: seq<ExtractionResult>): Effect {
    if VR.AnyRaises(w.lib, es) then Silent(NO_UPDATE, Crashed, [])
    else
      var ev := Evaluate(w, inp, es);
      if ev.failure.Some? then FailedValidation(ev) else CompletedValidation(inp, ev, Report(w, inp, es))
  }

  // --- risk scorer ---

  /** Names to screen, each list without repetitions, in order of first occurrence. */
  datatype Names = Names(persons: seq<string>, companies: seq<string>, owners: seq<string>)

  function Add(names: seq<string>, name: string): seq<string> {
    if name in names then names else names + [name]
  }

  function AddOwners(names: seq<string>, owners: seq<string>): seq<string> {
    if owners == [] then names
    else
      var before := AddOwners(names, owners[..|owners| - 1]);
      var last := owners[|owners| - 1];
      if last == "" then before else Add(before, last)
  }

  function AddNames(n: Names, e: ExtractionResult): Names {
    if e.error.Some? then n
    else
      Names(
        if e.docType in {IdDocument, ProofOfAddress} && FullName in e.text
        then Add(n.persons, e.text[FullName]) else n.persons,
        if CompanyName in e.text then Add(n.companies, e.text[CompanyName]) else n.companies,
        AddOwners(n.owners, e.owners))
  }

  function DeclaredNames(inp: Inputs): Names {
    var company := inp.package.applicant.companyName;
    Names(
      [inp.package.applicant.fullName],
      if inp.package.customer == Business && company.Some? && company.value != "" then [company.value] else [],
      [])
  }

  function ScreeningNames(inp: Inputs, es: seq<ExtractionResult>): Names {
    if es == [] then DeclaredNames(inp)
    else AddNames(ScreeningNames(inp, es[..|es| - 1]), es[|es| - 1])
  }

  /** One pass: the hits of the names answered, whether all were, events, calls. */
  datatype Screened = Screened(hits: seq<RegistryHit>, available: bool, events: seq<AuditEvent>, calls: nat)

  function Searching(w: World, inp: Inputs, s: Screening, i: nat, name: string): Tried<seq<RegistryHit>> {
    Retry(ScreeningStep(RegistryOf(s)), w.search(s, i, name), inp.settings.maxStepRetries, false)
  }

  function ScreenOne(inp: Inputs, s: Screening, name: string, before: Screened, t: Tried<seq<RegistryHit>>): Screened {
    if t.result.None? then
      Screened(before.hits, false,
        before.events + [Event(inp, RiskNode, ErrorEvent, ForErrors(t.errors))], before.calls + t.Calls())
    else
      Screened(before.hits + t.result.value, true,
        before.events + [Event(inp, RiskNode, RegistryChecked, ForName(RegistryOf(s), name, |t.result.value|))],
        before.calls + t.Calls())
  }

  function ScreenUpTo(w: World, inp: Inputs, s: Screening, names: seq<string>, n: nat): Screened
    requires n <= |names|
  {
    if n == 0 then Screened([], true, [], 0)
    else
      var before := ScreenUpTo(w, inp, s, names, n - 1);
      if !before.available then before
      else ScreenOne(inp, s, names[n - 1], before, Searching(w, inp, s, n - 1, names[n - 1]))
  }

  /** The names in order, up to the first one the registry does not answer for. */
  function Screen(w: World, inp: Inputs, s: Screening, names: seq<string>): Screened {
    ScreenUpTo(w, inp, s, names, |names|)
  }

  datatype Screenings = Screenings(main: Screened, pep: Screened, owners: Screened, ownersPep: Screened)

  function ScreenAll(w: World, inp: Inputs, n: Names): Screenings {
    Screenings(
      Screen(w, inp, SanctionsMain, n.persons + n.companies),
      Screen(w, inp, PepMain, n.persons),
      Screen(w, inp, SanctionsOwners, n.owners),
      Screen(w, inp, PepOwners, n.owners))
  }

  function ScreeningEvents(s: Screenings): seq<AuditEvent> {
    (s.main.events + s.pep.events) + (s.owners.events + s.ownersPep.events)
  }

  function Unavailable(s: Screenings): seq<Registry> {
    (if s.main.available && s.owners.available then [] else [Sanctions])
    + (if s.pep.available && s.ownersPep.available then [] else [Pep])
  }

  function EvidenceOf(inp: Inputs, v: Option<ValidationReport>, s: Screenings): Evidence {
    Evidence(
      inp.package.customer, inp.package.applicant.monthlyVolume,
      if v.Some? then v.value.confidence else 0.0,
      if v.Some? then v.value.flags else [],
      s.main.hits, s.pep.hits, s.owners.hits + s.ownersPep.hits, Unavailable(s))
  }

  function Narrating(w: World, inp: Inputs): Tried<string> {
    Retry(NarratorStep, w.narrator, inp.settings.maxStepRetries, true)
  }

  function Assess(w: World, inp: Inputs, e: Evidence): RiskAssessment {
    var triggers := Triggers(inp.settings, e);
    var t := Narrating(w, inp);
    RiskAssessment(LevelOf(triggers), triggers, e.sanctionsHits, e.pepHits + e.ownerHits,
      if t.result.Some? then Narrated(t.result.value) else Summary(triggers))
  }

  function Scored(inp: Inputs, s: Screenings, risk: RiskAssessment, narratorCalls: nat): Effect {
    Effect(NO_UPDATE.(risk := Some(risk)), AtGate,
           ScreeningEvents(s) + ReportEvents(inp, RiskNode, risk.triggers), narratorCalls,
           s.main.calls + s.pep.calls + s.owners.calls + s.ownersPep.calls)
  }

  function RiskScorer(w: World, inp: Inputs, v: Option<ValidationReport>, es: seq<ExtractionResult>): Effect {
    var s := ScreenAll(w, inp, ScreeningNames(inp, es));
    Scored(inp, s, Assess(w, inp, EvidenceOf(inp, v, s)), Narrating(w, inp).Calls())
  }

  // --- gate and closing steps ---

  function GateDecision(st: State): Decision {
    DecideGate(
      st.completeness,
      if st.validation.Some? then st.validation.value.flags else [],
      if st.risk.Some? then st.risk.value.triggers else [],
      Degraded(st))
  }

  /** What the gate does once it has decided. */
  function GateEffect(inp: Inputs, d: Decision): Effect {
    var events := [Event(inp, GateNode, NodeCompleted, ForDecision(d))];
    if d.outcome == Escalate then
      Silent(NO_UPDATE.(decision := Some(d), status := Some(AwaitingHumanReview)), AtHumanReview([]), events)
    else Silent(NO_UPDATE.(decision := Some(d)), AtAutoDecision, events)
  }

  function Gate(inp: Inputs, st: State): Effect {
    GateEffect(inp, GateDecision(st))
  }

  function AutoDecision(inp: Inputs, st: State): Effect {
    if st.decision.None? then Silent(NO_UPDATE, Crashed, [])
    else
      Silent(NO_UPDATE, AtFinalize, [Event(inp, AutoDecisionNode, DecisionMade, ForDecision(st.decision.value))])
  }

  function Finalize(inp: Inputs, st: State): Effect {
    if st.decision.None? then Silent(NO_UPDATE, Crashed, [])
    else
      Silent(NO_UPDATE.(status := Some(Completed)), Done,
        [Event(inp, FinalizeNode, CaseCompleted, ForDecision(st.decision.value))])
  }

  /** `errors[-5:]`. */
  function LastFive(errors: seq<ProcessingError>): seq<ProcessingError> {
    if |errors| <= 5 then errors else errors[|errors| - 5..]
  }

  function HandleError(inp: Inputs, st: State): Effect {
    Silent(NO_UPDATE.(status := Some(Processing)), AtGate,
      [Event(inp, HandleErrorNode, ErrorEvent, ForErrors(LastFive(st.errors)))])
  }

  // --- human review ---

  datatype HumanDecision = HumanDecision(approve: bool, reviewer: string, comment: string)

  /** Validation errors of a resume value, as `HumanDecision.model_validate` counts them. */
  function ValidationErrors(v: ResumeValue): nat {
    match v
    case NotAnObject => 1
    case Resume(outcome, reviewer, comment) =>
      (if outcome == Str("approve") || outcome == Str("reject") then 0 else 1)
      + (if reviewer.Str? then 0 else 1)
      + (if comment.OtherJson? then 1 else 0)
  }

  predicate ValidReview(v: ResumeValue) {
    ValidationErrors(v) == 0
  }

  function ReviewOf(v: ResumeValue): HumanDecision
    requires ValidReview(v)
  {
    HumanDecision(v.outcome == Str("approve"), v.reviewer.s, if v.comment.Str? then v.comment.s else "")
  }

  /** How one execution of the node over the stored resume values ends. */
  datatype Replayed =
    | Closed(human: HumanDecision)
    | Interrupted(resumeError: Option<nat>)

  /** The specification: the first valid value closes the case; without one the node
      interrupts again, reporting the errors of the last value. */
  function FirstValid(resumes: seq<ResumeValue>): Replayed {
    if resumes == [] then Interrupted(None)
    else
      var before := FirstValid(resumes[..|resumes| - 1]);
      var last := resumes[|resumes| - 1];
      if before.Closed? then before
      else if ValidReview(last) then Closed(ReviewOf(last))
      else Interrupted(Some(ValidationErrors(last)))
  }

  function HumanOutcome(human: HumanDecision, st: State): Decision {
    Decision(if human.approve then Approve else Reject, Human,
             if st.decision.Some? then st.decision.value.codes else [], Some(human.reviewer))
  }

  /** What an execution of the node that ends in `r` does. */
  function Reviewed(inp: Inputs, st: State, resumes: seq<ResumeValue>, r: Replayed): Effect {
    if r.Interrupted? then Silent(NO_UPDATE, AtHumanReview(resumes), [])
    else
      var d := HumanOutcome(r.human, st);
      Silent(NO_UPDATE.(decision := Some(d)), AtFinalize,
        [Event(inp, HumanReviewNode, HumanDecided, ForDecision(d))])
  }

  function HumanReview(inp: Inputs, st: State, resumes: seq<ResumeValue>): Effect {
    Reviewed(inp, st, resumes, FirstValid(resumes))
  }
}

/** The pipeline as a step machine. A run is a sequence of choices: which worker finishes
    next while several are running, and what a reviewer sends while the case is paused;
    everything else is determined by the world. */
module Machine {
  import opened Schemas
  import opened Resilience
  import opened Audit
  import opened Channels
  import opened Services
  import opened Nodes
  import ValidationRules

  datatype Choice =
    | Advance                     // the one step there is
    | Finish(task: nat)           // an extraction worker completes
    | Review(value: ResumeValue)  // a reviewer resumes the paused case

  /** `finished` lists the workers in the order they completed; `supersteps` counts the
      supersteps begun since the graph was last invoked. */
  datatype Config = Config(
    pc: Pc,
    st: State,
    finished: seq<nat>,
    events: seq<AuditEvent>,
    supersteps: nat,
    serviceCalls: nat,
    registryCalls: nat)

  const INITIAL := Config(AtIntake, FRESH, [], [], 0, 0, 0)

  predicate Enabled(c: Config, ch: Choice) {
    match ch
    case Advance => !c.pc.Extracting? && !c.pc.AtHumanReview? && !c.pc.Done? && !c.pc.Crashed?
    case Finish(i) => c.pc.Extracting? && i in c.pc.pending && i < |Known(c.st.classified)|
    case Review(_) => c.pc.AtHumanReview?
  }

  function EffectOf(w: World, inp: Inputs, c: Config, ch: Choice): Effect
    requires Enabled(c, ch)
  {
    match c.pc
    case AtIntake => Intake(inp)
    case AtRouter => Router(w, inp)
    case AtOrchestrator => Orchestrator(inp, c.st.classified)
    case Extracting(pending) => Worker(w, inp, Known(c.st.classified), pending, ch.task)
    case AtValidator => Validator(w, inp, c.st.extractions)
    case AtRiskScorer => RiskScorer(w, inp, c.st.validation, c.st.extractions)
    case AtHandleError => HandleError(inp, c.st)
    case AtGate => Gate(inp, c.st)
    case AtAutoDecision => AutoDecision(inp, c.st)
    case AtHumanReview(resumes) => HumanReview(inp, c.st, resumes + [ch.value])
    case AtFinalize => Finalize(inp, c.st)
  }

  /** Supersteps begun after a step. The workers share one superstep, which is over when the
      last of them is; reaching human review begins the superstep that pauses; a review
      starts a new invocation, which executes human review again. */
  function SuperstepsAfter(c: Config, next: Pc): nat {
    match c.pc
    case Extracting(_) => if next.Extracting? then c.supersteps else c.supersteps + 1
    case AtHumanReview(_) => 1
    case _ => c.supersteps + if next.AtHumanReview? then 2 else 1
  }

  /** The configuration after a step with effect `e`. */
  function After(c: Config, ch: Choice, e: Effect): Config {
    Config(
      e.next,
      Apply(c.st, e.update),
      if ch.Finish? then c.finished + [ch.task] else c.finished,
      c.events + e.events,
      SuperstepsAfter(c, e.next),
      c.serviceCalls + e.serviceCalls,
      c.registryCalls + e.registryCalls)
  }

  function Next(w: World, inp: Inputs, c: Config, ch: Choice): Config
    requires Enabled(c, ch)
  {
    After(c, ch, EffectOf(w, inp, c, ch))
  }

  /** Where a run leads; nothing when a choice was not there to be made. */
  function Exec(w: World, inp: Inputs, choices: seq<Choice>): Option<Config> {
    if choices == [] then Some(INITIAL)
    else
      var before := Exec(w, inp, choices[..|choices| - 1]);
      var ch := choices[|choices| - 1];
      if before.Some? && Enabled(before.value, ch) then Some(Next(w, inp, before.value, ch)) else None
  }

  // --- the states a run can be in ---

  predicate Routed(w: World, inp: Inputs) {
    Routing(w, inp).result.Some?
  }

  function Classified(w: World, inp: Inputs): seq<ClassifiedDocument> {
    if Routed(w, inp) then Reconcile(inp.package.documents, Routing(w, inp).result.value) else []
  }

  function Tasks(w: World, inp: Inputs): seq<ClassifiedDocument> {
    Known(Classified(w, inp))
  }

  predicate Complete(w: World, inp: Inputs) {
    Completeness(inp, Classified(w, inp)).None?
  }

  function Task(w: World, inp: Inputs, i: nat): ClassifiedDocument {
    if i < |Tasks(w, inp)| then Tasks(w, inp)[i] else ClassifiedDocument("", UnknownType, 0.0)
  }

  function TaskTried(w: World, inp: Inputs, i: nat): Tried<Extracted> {
    Extraction(w, inp, i, Task(w, inp, i))
  }

  function TaskResult(w: World, inp: Inputs, i: nat): ExtractionResult {
    ResultOf(Task(w, inp, i), TaskTried(w, inp, i))
  }

  function Results(w: World, inp: Inputs, order: seq<nat>): seq<ExtractionResult> {
    if order == [] then []
    else Results(w, inp, order[..|order| - 1]) + [TaskResult(w, inp, order[|order| - 1])]
  }

  function AfterIntake(inp: Inputs): State {
    Apply(FRESH, Intake(inp).update)
  }

  function AfterRouter(w: World, inp: Inputs): State {
    Apply(AfterIntake(inp), Router(w, inp).update)
  }

  function AfterPlan(w: World, inp: Inputs): State {
    Apply(AfterRouter(w, inp), Orchestrator(inp, Classified(w, inp)).update)
  }

  /** The workers in `order` have finished. */
  function Gathered(w: World, inp: Inputs, order: seq<nat>): State {
    if order == [] then AfterPlan(w, inp)
    else
      var last := order[|order| - 1];
      Apply(Gathered(w, inp, order[..|order| - 1]), WorkerUpdate(Task(w, inp, last), TaskTried(w, inp, last)))
  }

  function AfterValidator(w: World, inp: Inputs, order: seq<nat>): State {
    Apply(Gathered(w, inp, order), Validator(w, inp, Results(w, inp, order)).update)
  }

  function AfterScorer(w: World, inp: Inputs, order: seq<nat>): State {
    Apply(AfterValidator(w, inp, order),
          RiskScorer(w, inp, AfterValidator(w, inp, order).validation, Results(w, inp, order)).update)
  }

  predicate EvaluatorFailed(w: World, inp: Inputs, order: seq<nat>) {
    Evaluate(w, inp, Results(w, inp, order)).failure.Some?
  }

  /** The state that reaches the gate, by the four ways to get there: the router failed, the
      package is incomplete, the evaluator failed, or every step was done. */
  function AtTheGate(w: World, inp: Inputs, order: seq<nat>): State {
    if !Routed(w, inp) then Apply(AfterRouter(w, inp), HandleError(inp, AfterRouter(w, inp)).update)
    else if !Complete(w, inp) then AfterPlan(w, inp)
    else if EvaluatorFailed(w, inp, order) then
      Apply(AfterValidator(w, inp, order), HandleError(inp, AfterValidator(w, inp, order)).update)
    else AfterScorer(w, inp, order)
  }

  function SystemDecided(w: World, inp: Inputs, order: seq<nat>): Decision {
    GateDecision(AtTheGate(w, inp, order))
  }

  function AfterGate(w: World, inp: Inputs, order: seq<nat>): State {
    Apply(AtTheGate(w, inp, order), Gate(inp, AtTheGate(w, inp, order)).update)
  }

  /** Every task exactly once. */
  ghost predicate Schedule(order: seq<nat>, n: nat) {
    && (forall i: nat :: i in order <==> i < n)
    && forall i, j :: 0 <= i < j < |order| ==> order[i] != order[j]
  }

  ghost predicate Partial(order: seq<nat>, pending: set<nat>, n: nat) {
    && (forall i: nat :: i in order || i in pending <==> i < n)
    && (forall i: nat :: !(i in order && i in pending))
    && forall i, j :: 0 <= i < j < |order| ==> order[i] != order[j]
  }

  /** Extraction has taken place in the order `c.finished`. */
  ghost predicate AllExtracted(w: World, inp: Inputs, c: Config) {
    && Routed(w, inp)
    && Complete(w, inp)
    && Schedule(c.finished, |Tasks(w, inp)|)
  }

  /** How the case got to the gate, as far as `c.finished` tells. */
  ghost predicate Gated(w: World, inp: Inputs, c: Config) {
    if Routed(w, inp) && Complete(w, inp) then
      && Schedule(c.finished, |Tasks(w, inp)|)
      && !ValidatorCrashes(w, inp, c.finished)
    else c.finished == []
  }

  predicate ValidatorCrashes(w: World, inp: Inputs, order: seq<nat>) {
    Validator(w, inp, Results(w, inp, order)).next.Crashed?
  }

  ghost predicate NoneValid(resumes: seq<ResumeValue>) {
    FirstValid(resumes).Interrupted?
  }

  /** The decision that closes a case: the system's own if it did not escalate, otherwise a
      reviewer's, with the system's reason codes. */
  ghost predicate ClosingDecision(system: Decision, d: Decision) {
    if system.outcome != Escalate then d == system
    else
      && d.outcome != Escalate
      && d.decidedBy == Human
      && d.codes == system.codes
      && d.reviewer.Some?
  }

  /** The state after human review or the automatic decision. */
  ghost predicate Decided(w: World, inp: Inputs, c: Config) {
    && c.st.decision.Some?
    && ClosingDecision(SystemDecided(w, inp, c.finished), c.st.decision.value)
    && c.st.(decision := None, status := Received)
       == AtTheGate(w, inp, c.finished).(decision := None, status := Received)
  }

  ghost predicate WorkersInv(w: World, inp: Inputs, c: Config, pending: set<nat>) {
    && Routed(w, inp) && Complete(w, inp) && pending != {}
    && Partial(c.finished, pending, |Tasks(w, inp)|)
    && c.st == Gathered(w, inp, c.finished)
  }

  ghost predicate ValidatorInv(w: World, inp: Inputs, c: Config) {
    AllExtracted(w, inp, c) && c.st == Gathered(w, inp, c.finished)
  }

  ghost predicate ScorerInv(w: World, inp: Inputs, c: Config) {
    && AllExtracted(w, inp, c) && !ValidatorCrashes(w, inp, c.finished) && !EvaluatorFailed(w, inp, c.finished)
    && c.st == AfterValidator(w, inp, c.finished)
  }

  ghost predicate ErrorInv(w: World, inp: Inputs, c: Config) {
    || (!Routed(w, inp) && c.finished == [] && c.st == AfterRouter(w, inp))
    || (AllExtracted(w, inp, c) && !ValidatorCrashes(w, inp, c.finished) && EvaluatorFailed(w, inp, c.finished)
        && c.st == AfterValidator(w, inp, c.finished))
  }

  ghost predicate GateInv(w: World, inp: Inputs, c: Config) {
    Gated(w, inp, c) && c.st == AtTheGate(w, inp, c.finished)
  }

  /** The gate has decided, with or without escalating. */
  ghost predicate GateDone(w: World, inp: Inputs, c: Config, escalated: bool) {
    && Gated(w, inp, c)
    && (SystemDecided(w, inp, c.finished).outcome == Escalate <==> escalated)
    && c.st == AfterGate(w, inp, c.finished)
  }

  ghost predicate FinalInv(w: World, inp: Inputs, c: Config) {
    Gated(w, inp, c) && Decided(w, inp, c)
  }

  /** What every run keeps. */
  ghost predicate Inv(w: World, inp: Inputs, c: Config) {
    match c.pc
    case AtIntake => c == INITIAL
    case AtRouter => c.finished == [] && c.st == AfterIntake(inp)
    case AtOrchestrator => c.finished == [] && Routed(w, inp) && c.st == AfterRouter(w, inp)
    case Extracting(pending) => WorkersInv(w, inp, c, pending)
    case AtValidator => ValidatorInv(w, inp, c)
    case AtRiskScorer => ScorerInv(w, inp, c)
    case AtHandleError => ErrorInv(w, inp, c)
    case AtGate => GateInv(w, inp, c)
    case AtAutoDecision => GateDone(w, inp, c, false)
    case AtHumanReview(resumes) => GateDone(w, inp, c, true) && NoneValid(resumes)
    case AtFinalize => FinalInv(w, inp, c)
    case Done => FinalInv(w, inp, c) && c.st.status == Completed
    case Crashed => AllExtracted(w, inp, c) && ValidatorCrashes(w, inp, c.finished)
  }

  // --- every run keeps it ---

  lemma RouterChannels(w: World, inp: Inputs)
    ensures var st := AfterRouter(w, inp);
            && st.classified == Classified(w, inp)
            && st.completeness.None? && st.validation.None? && st.risk.None? && st.decision.None?
            && st.extractions == []
            && st.errors == Routing(w, inp).errors
            && st.degradedReasons == (if Routed(w, inp) then [] else [RouterFailed])
  {
  }

  /** What the additive channels hold once the workers in `order` have finished. */
  lemma {:induction false} GatheredChannels(w: World, inp: Inputs, order: seq<nat>)
    requires Routed(w, inp)
    ensures var st := Gathered(w, inp, order);
            && st.classified == Classified(w, inp)
            && st.completeness == Completeness(inp, Classified(w, inp))
            && st.validation.None? && st.risk.None? && st.decision.None?
            && st.extractions == Results(w, inp, order)
  {
    RouterChannels(w, inp);
    if order != [] {
      GatheredChannels(w, inp, order[..|order| - 1]);
    }
  }

  /** The failures of the workers in `order`, in the order they finished. */
  function WorkerErrors(w: World, inp: Inputs, order: seq<nat>): seq<ProcessingError> {
    if order == [] then []
    else WorkerErrors(w, inp, order[..|order| - 1]) + TaskTried(w, inp, order[|order| - 1]).errors
  }

  /** Why the workers in `order` degrade the case, in the order they finished. */
  function WorkersReasons(w: World, inp: Inputs, order: seq<nat>): seq<DegradedReason> {
    if order == [] then []
    else
      var last := order[|order| - 1];
      WorkersReasons(w, inp, order[..|order| - 1]) + WorkerReasons(Task(w, inp, last), TaskTried(w, inp, last))
  }

  lemma PlannedFailures(w: World, inp: Inputs)
    requires Routed(w, inp)
    ensures AfterPlan(w, inp).errors == Routing(w, inp).errors
    ensures AfterPlan(w, inp).degradedReasons == UnknownReasons(Unknown(Classified(w, inp)))
  {
    RouterChannels(w, inp);
  }

  lemma OneMoreFailure(w: World, inp: Inputs, front: seq<nat>, i: nat)
    ensures var was, now := Gathered(w, inp, front), Gathered(w, inp, front + [i]);
            && now.errors == was.errors + TaskTried(w, inp, i).errors
            && now.degradedReasons == was.degradedReasons + WorkerReasons(Task(w, inp, i), TaskTried(w, inp, i))
  {
    assert (front + [i])[..|front|] == front;
  }

  lemma FailuresAdd(w: World, inp: Inputs, front: seq<nat>, i: nat)
    ensures WorkerErrors(w, inp, front + [i]) == WorkerErrors(w, inp, front) + TaskTried(w, inp, i).errors
    ensures WorkersReasons(w, inp, front + [i])
            == WorkersReasons(w, inp, front) + WorkerReasons(Task(w, inp, i), TaskTried(w, inp, i))
  {
    assert (front + [i])[..|front|] == front;
  }

  lemma FailuresStep(w: World, inp: Inputs, front: seq<nat>, i: nat, errors: seq<ProcessingError>, reasons: seq<DegradedReason>)
    requires Gathered(w, inp, front).errors == errors + WorkerErrors(w, inp, front)
    requires Gathered(w, inp, front).degradedReasons == reasons + WorkersReasons(w, inp, front)
    ensures Gathered(w, inp, front + [i]).errors == errors + WorkerErrors(w, inp, front + [i])
    ensures Gathered(w, inp, front + [i]).degradedReasons == reasons + WorkersReasons(w, inp, front + [i])
  {
    OneMoreFailure(w, inp, front, i);
    FailuresAdd(w, inp, front, i);
    Associative(errors, WorkerErrors(w, inp, front), TaskTried(w, inp, i).errors);
    Associative(reasons, WorkersReasons(w, inp, front), WorkerReasons(Task(w, inp, i), TaskTried(w, inp, i)));
  }

  /** What the channels for failures hold once the workers in `order` have finished: what the
      router and the orchestrator put there, then what each worker adds. */
  lemma {:induction false} GatheredFailures(w: World, inp: Inputs, order: seq<nat>)
    requires Routed(w, inp)
    ensures Gathered(w, inp, order).errors == Routing(w, inp).errors + WorkerErrors(w, inp, order)
    ensures Gathered(w, inp, order).degradedReasons
            == UnknownReasons(Unknown(Classified(w, inp))) + WorkersReasons(w, inp, order)
  {
    if order == [] {
      PlannedFailures(w, inp);
    } else {
      var front, last := order[..|order| - 1], order[|order| - 1];
      assert order == front + [last];
      GatheredFailures(w, inp, front);
      FailuresStep(w, inp, front, last, Routing(w, inp).errors, UnknownReasons(Unknown(Classified(w, inp))));
    }
  }

  lemma PartialStart(n: nat)
    ensures Partial([], Indices(n), n)
  {
  }

  lemma PartialStep(order: seq<nat>, pending: set<nat>, n: nat, i: nat)
    requires Partial(order, pending, n) && i in pending
    ensures Partial(order + [i], pending - {i}, n)
    ensures pending - {i} == {} ==> Schedule(order + [i], n)
  {
    forall k: nat
      ensures k in order + [i] || k in pending - {i} <==> k < n
      ensures !(k in order + [i] && k in pending - {i})
    {
      assert k in order + [i] <==> k in order || k == i;
    }
    var more := order + [i];
    forall a, b | 0 <= a < b < |more|
      ensures more[a] != more[b]
    {
      if b == |order| {
        assert order[a] in order;
      }
    }
  }

  /** A complete package is never without work: some known document has each required type. */
  lemma CompleteHasWork(inp: Inputs, classified: seq<ClassifiedDocument>)
    requires Completeness(inp, classified).None?
    ensures |Known(classified)| > 0
  {
    var t := if inp.package.customer == Individual then IdDocument else BusinessRegistration;
    assert t in RequiredDocuments(inp.package.customer);
    assert t in TypesOf(Known(classified));
  }

  lemma FinishKeeps(w: World, inp: Inputs, c: Config, pending: set<nat>, i: nat)
    requires WorkersInv(w, inp, c, pending) && i in pending
    ensures i < |Known(c.st.classified)|
    ensures var c' := After(c, Finish(i), Worker(w, inp, Known(c.st.classified), pending, i));
            if pending - {i} == {} then c'.pc == AtValidator && ValidatorInv(w, inp, c')
            else c'.pc == Extracting(pending - {i}) && WorkersInv(w, inp, c', pending - {i})
  {
    GatheredChannels(w, inp, c.finished);
    PartialStep(c.finished, pending, |Tasks(w, inp)|, i);
    var order := c.finished + [i];
    assert order[..|order| - 1] == c.finished;
    assert Task(w, inp, i) == Known(c.st.classified)[i];
  }

  lemma WorkerFinishes(w: World, inp: Inputs, c: Config, i: nat)
    requires Inv(w, inp, c) && Enabled(c, Finish(i))
    ensures Inv(w, inp, Next(w, inp, c, Finish(i)))
  {
    FinishKeeps(w, inp, c, c.pc.pending, i);
  }

  lemma IntakeKeeps(w: World, inp: Inputs, c: Config)
    requires Inv(w, inp, c) && c.pc.AtIntake?
    ensures Inv(w, inp, Next(w, inp, c, Advance))
  {
  }

  lemma RouterKeeps(w: World, inp: Inputs, c: Config)
    requires Inv(w, inp, c) && c.pc.AtRouter?
    ensures Inv(w, inp, Next(w, inp, c, Advance))
  {
  }

  lemma OrchestratorKeeps(w: World, inp: Inputs, c: Config)
    requires Inv(w, inp, c) && c.pc.AtOrchestrator?
    ensures Inv(w, inp, Next(w, inp, c, Advance))
  {
    RouterChannels(w, inp);
    if Complete(w, inp) {
      CompleteHasWork(inp, Classified(w, inp));
      PartialStart(|Tasks(w, inp)|);
      assert 0 in Indices(|Tasks(w, inp)|);
    }
  }

  lemma ValidatorNext(w: World, inp: Inputs, es: seq<ExtractionResult>)
    ensures var next := Validator(w, inp, es).next;
            next == if ValidationRules.AnyRaises(w.lib, es) then Crashed
                    else if Evaluate(w, inp, es).failure.Some? then AtHandleError
                    else AtRiskScorer
  {
  }

  lemma ValidatorKeeps(w: World, inp: Inputs, c: Config)
    requires ValidatorInv(w, inp, c)
    ensures var c' := After(c, Advance, Validator(w, inp, c.st.extractions));
            if ValidatorCrashes(w, inp, c.finished) then c'.pc == Crashed && AllExtracted(w, inp, c') && c'.finished == c.finished
            else if EvaluatorFailed(w, inp, c.finished) then c'.pc == AtHandleError && ErrorInv(w, inp, c')
            else c'.pc == AtRiskScorer && ScorerInv(w, inp, c')
  {
    GatheredChannels(w, inp, c.finished);
    ValidatorNext(w, inp, c.st.extractions);
  }

  lemma ValidatorAdvances(w: World, inp: Inputs, c: Config)
    requires Inv(w, inp, c) && c.pc.AtValidator?
    ensures Inv(w, inp, Next(w, inp, c, Advance))
  {
    ValidatorKeeps(w, inp, c);
  }

  lemma ValidatedChannels(w: World, inp: Inputs, order: seq<nat>)
    requires Routed(w, inp) && !ValidatorCrashes(w, inp, order)
    ensures var st := AfterValidator(w, inp, order);
            && st.extractions == Results(w, inp, order)
            && st.completeness == Completeness(inp, Classified(w, inp))
            && st.validation == (if EvaluatorFailed(w, inp, order) then None
                                 else Some(Report(w, inp, Results(w, inp, order))))
            && st.risk.None? && st.decision.None?
            && st.degradedReasons == Gathered(w, inp, order).degradedReasons
                 + if EvaluatorFailed(w, inp, order) then [ValidatorFailed] else []
  {
    GatheredChannels(w, inp, order);
    ValidatorNext(w, inp, Results(w, inp, order));
  }

  lemma ScorerKeeps(w: World, inp: Inputs, c: Config)
    requires ScorerInv(w, inp, c)
    ensures var c' := After(c, Advance, RiskScorer(w, inp, c.st.validation, c.st.extractions));
            c'.pc == AtGate && GateInv(w, inp, c')
  {
    ValidatedChannels(w, inp, c.finished);
  }

  lemma ScorerAdvances(w: World, inp: Inputs, c: Config)
    requires Inv(w, inp, c) && c.pc.AtRiskScorer?
    ensures Inv(w, inp, Next(w, inp, c, Advance))
  {
    ScorerKeeps(w, inp, c);
  }

  lemma HandleErrorKeeps(w: World, inp: Inputs, c: Config)
    requires Inv(w, inp, c) && c.pc.AtHandleError?
    ensures Inv(w, inp, Next(w, inp, c, Advance))
  {
  }

  lemma GateDecides(w: World, inp: Inputs, order: seq<nat>)
    ensures AfterGate(w, inp, order).decision == Some(SystemDecided(w, inp, order))
    ensures AfterGate(w, inp, order).(decision := None, status := Received)
            == AtTheGate(w, inp, order).(decision := None, status := Received)
  {
    var st := AtTheGate(w, inp, order);
    MergeCountsAlgebra(st.retryCounts, map[], map[]);
    assert st.extractions + [] == st.extractions && st.errors + [] == st.errors
           && st.degradedReasons + [] == st.degradedReasons;
  }

  lemma NoUpdateKeeps(st: State)
    ensures Apply(st, NO_UPDATE) == st
  {
    MergeCountsAlgebra(st.retryCounts, map[], map[]);
    assert st.extractions + [] == st.extractions && st.errors + [] == st.errors
           && st.degradedReasons + [] == st.degradedReasons;
  }

  lemma SetStatusKeeps(st: State, status: CaseStatus)
    ensures Apply(st, NO_UPDATE.(status := Some(status))) == st.(status := status)
  {
    NoUpdateKeeps(st);
  }

  lemma SetDecisionKeeps(st: State, d: Decision)
    ensures Apply(st, NO_UPDATE.(decision := Some(d))) == st.(decision := Some(d))
  {
    NoUpdateKeeps(st);
  }

  lemma GateKeeps(w: World, inp: Inputs, c: Config)
    requires GateInv(w, inp, c)
    ensures var c' := After(c, Advance, Gate(inp, c.st));
            if SystemDecided(w, inp, c.finished).outcome == Escalate
            then c'.pc == AtHumanReview([]) && GateDone(w, inp, c', true)
            else c'.pc == AtAutoDecision && GateDone(w, inp, c', false)
  {
  }

  lemma GateAdvances(w: World, inp: Inputs, c: Config)
    requires Inv(w, inp, c) && c.pc.AtGate?
    ensures Inv(w, inp, Next(w, inp, c, Advance))
  {
    GateKeeps(w, inp, c);
  }

  lemma AutoKeeps(w: World, inp: Inputs, c: Config)
    requires GateDone(w, inp, c, false)
    ensures var c' := After(c, Advance, AutoDecision(inp, c.st));
            c'.pc == AtFinalize && FinalInv(w, inp, c')
  {
    GateDecides(w, inp, c.finished);
    NoUpdateKeeps(c.st);
  }

  lemma AutoAdvances(w: World, inp: Inputs, c: Config)
    requires Inv(w, inp, c) && c.pc.AtAutoDecision?
    ensures Inv(w, inp, Next(w, inp, c, Advance))
  {
    AutoKeeps(w, inp, c);
  }

  lemma FinalizeKeeps(w: World, inp: Inputs, c: Config)
    requires Inv(w, inp, c) && c.pc.AtFinalize?
    ensures Inv(w, inp, Next(w, inp, c, Advance))
  {
    SetStatusKeeps(c.st, Completed);
  }

  lemma HumanClosing(system: Decision, st: State, human: HumanDecision)
    requires st.decision == Some(system) && system.outcome == Escalate
    ensures ClosingDecision(system, HumanOutcome(human, st))
  {
  }

  lemma ReviewKeeps(w: World, inp: Inputs, c: Config, ch: Choice, resumes: seq<ResumeValue>, r: Replayed)
    requires GateDone(w, inp, c, true) && !ch.Finish?
    ensures var c' := After(c, ch, Reviewed(inp, c.st, resumes, r));
            if r.Closed? then c'.pc == AtFinalize && FinalInv(w, inp, c')
            else c'.pc == AtHumanReview(resumes) && GateDone(w, inp, c', true)
  {
    GateDecides(w, inp, c.finished);
    if r.Closed? {
      SetDecisionKeeps(c.st, HumanOutcome(r.human, c.st));
      HumanClosing(SystemDecided(w, inp, c.finished), c.st, r.human);
    } else {
      NoUpdateKeeps(c.st);
    }
  }

  lemma ReviewResumes(w: World, inp: Inputs, c: Config, v: ResumeValue)
    requires Inv(w, inp, c) && Enabled(c, Review(v))
    ensures Inv(w, inp, Next(w, inp, c, Review(v)))
  {
    var resumes := c.pc.resumes + [v];
    ReviewKeeps(w, inp, c, Review(v), resumes, FirstValid(resumes));
  }

  lemma StepKeeps(w: World, inp: Inputs, c: Config, ch: Choice)
    requires Inv(w, inp, c) && Enabled(c, ch)
    ensures Inv(w, inp, Next(w, inp, c, ch))
  {
    match c.pc
    case AtIntake => IntakeKeeps(w, inp, c);
    case AtRouter => RouterKeeps(w, inp, c);
    case AtOrchestrator => OrchestratorKeeps(w, inp, c);
    case Extracting(_) => WorkerFinishes(w, inp, c, ch.task);
    case AtValidator => ValidatorAdvances(w, inp, c);
    case AtRiskScorer => ScorerAdvances(w, inp, c);
    case AtHandleError => HandleErrorKeeps(w, inp, c);
    case AtGate => GateAdvances(w, inp, c);
    case AtAutoDecision => AutoAdvances(w, inp, c);
    case AtHumanReview(_) => ReviewResumes(w, inp, c, ch.value);
    case AtFinalize => FinalizeKeeps(w, inp, c);
    case _ =>
  }

  /** The invariant holds of every run: any world, any inputs, any schedule of the workers,
      any reviews. */
  lemma {:induction false} RunsKeepInv(w: World, inp: Inputs, choices: seq<Choice>)
    requires Exec(w, inp, choices).Some?
    ensures Inv(w, inp, Exec(w, inp, choices).value)
  {
    if choices != [] {
      var last := |choices| - 1;
      RunsKeepInv(w, inp, choices[..last]);
      StepKeeps(w, inp, Exec(w, inp, choices[..last]).value, choices[last]);
    }
  }
}

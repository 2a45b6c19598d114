/** What reaches the gate, and the exact conditions of degradation and of an automatic
    approval. */
module Gatekeeping {
  import opened Schemas
  import opened Resilience
  import opened Channels
  import opened Services
  import opened RiskRules
  import opened Nodes
  import opened Machine
  import VR = ValidationRules
  import Progress

  // --- degradation ---

  predicate TaskFailed(w: World, inp: Inputs, i: nat) {
    TaskResult(w, inp, i).error.Some?
  }

  ghost predicate AnyFailed(w: World, inp: Inputs, order: seq<nat>) {
    exists i :: i in order && TaskFailed(w, inp, i)
  }

  lemma ReasonsOfWorker(w: World, inp: Inputs, i: nat)
    ensures WorkerReasons(Task(w, inp, i), TaskTried(w, inp, i)) != [] <==> TaskFailed(w, inp, i)
  {
  }

  lemma AnyFailedAppend(w: World, inp: Inputs, front: seq<nat>, last: nat)
    ensures AnyFailed(w, inp, front + [last]) <==> AnyFailed(w, inp, front) || TaskFailed(w, inp, last)
  {
    if i :| i in front && TaskFailed(w, inp, i) { assert i in front + [last]; }
    if TaskFailed(w, inp, last) { assert last in front + [last]; }
  }

  lemma {:induction false} WorkersReasonsExact(w: World, inp: Inputs, order: seq<nat>)
    ensures WorkersReasons(w, inp, order) != [] <==> AnyFailed(w, inp, order)
  {
    if order != [] {
      var front, last := order[..|order| - 1], order[|order| - 1];
      assert order == front + [last];
      WorkersReasonsExact(w, inp, front);
      ReasonsOfWorker(w, inp, last);
      AnyFailedAppend(w, inp, front, last);
      FailuresAdd(w, inp, front, last);
    }
  }

  lemma GatheredReasons(w: World, inp: Inputs, order: seq<nat>)
    requires Routed(w, inp)
    ensures Gathered(w, inp, order).degradedReasons != [] <==>
              Unknown(Classified(w, inp)) != [] || AnyFailed(w, inp, order)
  {
    GatheredFailures(w, inp, order);
    WorkersReasonsExact(w, inp, order);
  }

  /** Something went wrong on the way: the router or the evaluator exhausted its retries, a
      document could not be classified, or an extraction has an error. */
  ghost predicate Troubled(w: World, inp: Inputs, order: seq<nat>) {
    || !Routed(w, inp)
    || Unknown(Classified(w, inp)) != []
    || (Complete(w, inp)
        && (EvaluatorFailed(w, inp, order) || AnyFailed(w, inp, order)))
  }

  ghost predicate Settled(w: World, inp: Inputs, order: seq<nat>) {
    Routed(w, inp) && Complete(w, inp) ==> Schedule(order, |Tasks(w, inp)|) && !ValidatorCrashes(w, inp, order)
  }

  function ScreeningsOf(w: World, inp: Inputs, order: seq<nat>): Screenings {
    ScreenAll(w, inp, ScreeningNames(inp, Results(w, inp, order)))
  }

  function EvidenceFor(w: World, inp: Inputs, order: seq<nat>): Evidence {
    EvidenceOf(inp, Some(Report(w, inp, Results(w, inp, order))), ScreeningsOf(w, inp, order))
  }

  predicate Assessed(w: World, inp: Inputs, order: seq<nat>) {
    Routed(w, inp) && Complete(w, inp) && !EvaluatorFailed(w, inp, order)
  }

  lemma AssessedState(w: World, inp: Inputs, order: seq<nat>)
    requires Settled(w, inp, order) && Assessed(w, inp, order)
    ensures var st := AtTheGate(w, inp, order);
            && st.completeness.None?
            && st.validation == Some(Report(w, inp, Results(w, inp, order)))
            && st.risk == Some(Assess(w, inp, EvidenceFor(w, inp, order)))
            && st.degradedReasons == Gathered(w, inp, order).degradedReasons
  {
    ValidatedChannels(w, inp, order);
  }

  /** What the gate finds in the state. */
  lemma GateState(w: World, inp: Inputs, order: seq<nat>)
    requires Settled(w, inp, order)
    ensures var st := AtTheGate(w, inp, order);
            && (Degraded(st) <==> Troubled(w, inp, order))
            && (st.completeness.Some? <==> Routed(w, inp) && !Complete(w, inp))
            && (Assessed(w, inp, order) ==>
                  && st.validation == Some(Report(w, inp, Results(w, inp, order)))
                  && st.risk == Some(Assess(w, inp, EvidenceFor(w, inp, order))))
            && (!Assessed(w, inp, order) ==> st.validation.None? && st.risk.None?)
  {
    RouterChannels(w, inp);
    if Assessed(w, inp, order) {
      AssessedState(w, inp, order);
      GatheredReasons(w, inp, order);
    } else if Routed(w, inp) && Complete(w, inp) {
      ValidatedChannels(w, inp, order);
    } else if Routed(w, inp) {
      GatheredChannels(w, inp, []);
      GatheredReasons(w, inp, []);
    }
  }

  /** The system's outcome, by cases. */
  lemma OutcomeExact(w: World, inp: Inputs, order: seq<nat>)
    requires Settled(w, inp, order)
    ensures var d := SystemDecided(w, inp, order);
            var triggers := if Assessed(w, inp, order) then Triggers(inp.settings, EvidenceFor(w, inp, order)) else [];
            var flags := if Assessed(w, inp, order) then AllFlags(w, inp, Results(w, inp, order)) else [];
            && d.decidedBy == System
            && (d.outcome == Escalate <==> Troubled(w, inp, order) || triggers != [])
            && (d.outcome == Approve <==>
                  !Troubled(w, inp, order) && Complete(w, inp) && triggers == [] && !HasExpired(flags))
            && (Troubled(w, inp, order) ==> DEGRADED_TO_MANUAL in d.codes)
            && (d.outcome == Escalate ==>
                  d.codes == SortedCodes(triggers) + if Troubled(w, inp, order) then [DEGRADED_TO_MANUAL] else [])
  {
    GateState(w, inp, order);
    var st := AtTheGate(w, inp, order);
    EscalationRecall(
      st.completeness,
      if st.validation.Some? then st.validation.value.flags else [],
      if st.risk.Some? then st.risk.value.triggers else [],
      Degraded(st));
  }

  /** The system has decided; a reviewer may have decided after it. */
  predicate DecidedByNow(c: Config) {
    c.pc.AtAutoDecision? || c.pc.AtHumanReview? || c.pc.AtFinalize? || c.pc.Done?
  }

  lemma RunSettled(w: World, inp: Inputs, c: Config)
    requires Inv(w, inp, c) && (c.pc.AtGate? || DecidedByNow(c))
    ensures Settled(w, inp, c.finished)
  {
  }

  lemma GateDoneState(w: World, inp: Inputs, c: Config, escalated: bool)
    requires GateDone(w, inp, c, escalated)
    ensures SameButDecision(c.st, AtTheGate(w, inp, c.finished))
    ensures c.st.decision == Some(SystemDecided(w, inp, c.finished))
  {
    GateDecides(w, inp, c.finished);
  }

  ghost predicate SameButDecision(s: State, t: State) {
    s.(decision := None, status := Received) == t.(decision := None, status := Received)
  }

  lemma StateAfterGate(w: World, inp: Inputs, c: Config)
    requires Inv(w, inp, c) && DecidedByNow(c)
    ensures SameButDecision(c.st, AtTheGate(w, inp, c.finished))
    ensures ClosingOrSystem(c, SystemDecided(w, inp, c.finished))
  {
    if c.pc.AtAutoDecision? {
      GateDoneState(w, inp, c, false);
    } else if c.pc.AtHumanReview? {
      GateDoneState(w, inp, c, true);
    } else {
      assert FinalInv(w, inp, c);
    }
  }

  ghost predicate ClosingOrSystem(c: Config, system: Decision) {
    && c.st.decision.Some?
    && if c.pc.AtAutoDecision? || c.pc.AtHumanReview? then
         c.st.decision.value == system && (c.pc.AtHumanReview? <==> system.outcome == Escalate)
       else ClosingDecision(system, c.st.decision.value)
  }

  lemma DegradedExactly(w: World, inp: Inputs, c: Config)
    requires Inv(w, inp, c) && DecidedByNow(c)
    ensures Degraded(c.st) <==> Troubled(w, inp, c.finished)
  {
    RunSettled(w, inp, c);
    StateAfterGate(w, inp, c);
    GateState(w, inp, c.finished);
    assert c.st.degradedReasons == AtTheGate(w, inp, c.finished).degradedReasons;
  }

  lemma TroubleEscalates(w: World, inp: Inputs, c: Config)
    requires Inv(w, inp, c) && DecidedByNow(c)
    ensures ClosingOrSystem(c, SystemDecided(w, inp, c.finished))
    ensures Troubled(w, inp, c.finished) ==>
              && SystemDecided(w, inp, c.finished).outcome == Escalate
              && DEGRADED_TO_MANUAL in SystemDecided(w, inp, c.finished).codes
  {
    RunSettled(w, inp, c);
    StateAfterGate(w, inp, c);
    OutcomeExact(w, inp, c.finished);
  }

  /** Degradation is decisive: a run whose router or evaluator exhausted its retries, with
      an unclassifiable document or an extraction with an error, is degraded when the gate
      decides, and only such a run is; it waits for a human, and is never approved or
      rejected by the system. */
  lemma DegradationDecides(w: World, inp: Inputs, choices: seq<Choice>)
    requires Exec(w, inp, choices).Some? && DecidedByNow(Exec(w, inp, choices).value)
    ensures var c := Exec(w, inp, choices).value;
            && c.st.decision.Some?
            && (Degraded(c.st) <==> Troubled(w, inp, c.finished))
            && (Degraded(c.st) ==>
                  && !c.pc.AtAutoDecision?
                  && DEGRADED_TO_MANUAL in c.st.decision.value.codes
                  && (c.pc.AtFinalize? || c.pc.Done? ==> c.st.decision.value.decidedBy == Human))
  {
    RunsKeepInv(w, inp, choices);
    var c := Exec(w, inp, choices).value;
    DegradedExactly(w, inp, c);
    TroubleEscalates(w, inp, c);
  }

  /** Degradation is never lost: reasons are only ever added. */
  lemma {:induction false} DegradationMonotone(w: World, inp: Inputs, choices: seq<Choice>, more: seq<Choice>)
    requires Exec(w, inp, choices + more).Some?
    ensures Exec(w, inp, choices).Some?
    ensures Exec(w, inp, choices).value.st.degradedReasons <= Exec(w, inp, choices + more).value.st.degradedReasons
    ensures Exec(w, inp, choices).value.st.extractions <= Exec(w, inp, choices + more).value.st.extractions
    ensures Exec(w, inp, choices).value.st.errors <= Exec(w, inp, choices + more).value.st.errors
    ensures Exec(w, inp, choices).value.events <= Exec(w, inp, choices + more).value.events
  {
    if more == [] {
      assert choices + more == choices;
    } else {
      var last := |more| - 1;
      assert (choices + more)[..|choices + more| - 1] == choices + more[..last];
      DegradationMonotone(w, inp, choices, more[..last]);
    }
  }

  /** A document the model's answer leaves out is UNKNOWN, so the case is in trouble. */
  lemma LeftOutDocumentTroubles(w: World, inp: Inputs, order: seq<nat>, i: nat)
    requires Routed(w, inp) && i < |inp.package.documents|
    requires forall c :: c in Routing(w, inp).result.value ==> c.id != inp.package.documents[i].id
    ensures Troubled(w, inp, order)
  {
    ReconcileComplete(inp.package.documents, Routing(w, inp).result.value);
    var c := Classified(w, inp)[i];
    assert c in Classified(w, inp);
    Progress.KnownFrom(Classified(w, inp), c);
  }

  /** So every run in which the model's answer leaves out a document is escalated, and if it
      is closed a human closed it. */
  lemma LeftOutDocumentEscalates(w: World, inp: Inputs, choices: seq<Choice>, i: nat)
    requires Routed(w, inp) && i < |inp.package.documents|
    requires forall c :: c in Routing(w, inp).result.value ==> c.id != inp.package.documents[i].id
    requires Exec(w, inp, choices).Some? && DecidedByNow(Exec(w, inp, choices).value)
    ensures var c := Exec(w, inp, choices).value;
            var system := SystemDecided(w, inp, c.finished);
            && ClosingOrSystem(c, system)
            && system.outcome == Escalate && DEGRADED_TO_MANUAL in system.codes
            && (c.pc.Done? ==> c.st.decision.value.decidedBy == Human)
  {
    RunsKeepInv(w, inp, choices);
    var c := Exec(w, inp, choices).value;
    LeftOutDocumentTroubles(w, inp, c.finished, i);
    TroubleEscalates(w, inp, c);
  }

  // --- automatic approval ---

  /** The service answers within its budget. */
  ghost predicate Answers<T>(script: nat -> Reply<T>, budget: nat) {
    exists k :: 1 <= k <= budget && script(k).Answer?
  }

  /** The first answer within the budget is this one. */
  ghost predicate FirstAnswer<T>(script: nat -> Reply<T>, budget: nat, value: T) {
    exists k :: 1 <= k <= budget && FirstSuccess(script, 1, k) && script(k) == Answer(value)
  }

  lemma RetryAnswers<T>(node: StepName, script: nat -> Reply<T>, r: nat, hasFallback: bool)
    ensures Retry(node, script, r, hasFallback).result.Some? <==> Answers(script, Budget(r, hasFallback))
    ensures forall v :: Retry(node, script, r, hasFallback).result == Some(v)
                        <==> FirstAnswer(script, Budget(r, hasFallback), v)
  {
    RetryIsFirstSuccess(node, script, r, hasFallback);
  }

  /** The registry answers for every name, with nothing. */
  ghost predicate Clean(w: World, inp: Inputs, s: Screening, names: seq<string>) {
    forall i :: 0 <= i < |names| ==>
      FirstAnswer(w.search(s, i, names[i]), 1 + inp.settings.maxStepRetries, [])
  }

  lemma {:induction false} CleanUpTo(w: World, inp: Inputs, s: Screening, names: seq<string>, n: nat)
    requires n <= |names|
    ensures var r := ScreenUpTo(w, inp, s, names, n);
            r.available && r.hits == [] <==>
              forall i :: 0 <= i < n ==> Searching(w, inp, s, i, names[i]).result == Some([])
  {
    if n > 0 {
      CleanUpTo(w, inp, s, names, n - 1);
    }
  }

  lemma CleanExact(w: World, inp: Inputs, s: Screening, names: seq<string>)
    ensures Screen(w, inp, s, names).available && Screen(w, inp, s, names).hits == []
            <==> Clean(w, inp, s, names)
  {
    CleanUpTo(w, inp, s, names, |names|);
    forall i | 0 <= i < |names|
      ensures Searching(w, inp, s, i, names[i]).result == Some([])
              <==> FirstAnswer(w.search(s, i, names[i]), 1 + inp.settings.maxStepRetries, [])
    {
      RetryAnswers(ScreeningStep(RegistryOf(s)), w.search(s, i, names[i]), inp.settings.maxStepRetries, false);
    }
  }

  ghost predicate AllClean(w: World, inp: Inputs, n: Names) {
    && Clean(w, inp, SanctionsMain, n.persons + n.companies)
    && Clean(w, inp, PepMain, n.persons)
    && Clean(w, inp, SanctionsOwners, n.owners)
    && Clean(w, inp, PepOwners, n.owners)
  }

  /** The volume is within the limit for this kind of customer. */
  predicate WithinVolume(settings: Settings, customer: CustomerType, volume: real) {
    && (customer == Individual ==> volume <= settings.highVolumeIndividual)
    && (customer == Business ==> volume <= settings.highVolumeBusiness)
  }

  /** No risk rule fires exactly when volume, confidence, flags and registries are clean. */
  lemma NoTriggersExact(w: World, inp: Inputs, v: ValidationReport, n: Names)
    ensures Triggers(inp.settings, EvidenceOf(inp, Some(v), ScreenAll(w, inp, n))) == [] <==>
              && WithinVolume(inp.settings, inp.package.customer, inp.package.applicant.monthlyVolume)
              && v.confidence >= inp.settings.confidence
              && (forall f :: f in v.flags ==> !ContradictsCritically(f))
              && AllClean(w, inp, n)
  {
    var s := ScreenAll(w, inp, n);
    var e := EvidenceOf(inp, Some(v), s);
    NothingDue(inp.settings, e);
    CleanExact(w, inp, SanctionsMain, n.persons + n.companies);
    CleanExact(w, inp, PepMain, n.persons);
    CleanExact(w, inp, SanctionsOwners, n.owners);
    CleanExact(w, inp, PepOwners, n.owners);
  }

  lemma NoRuleDue(settings: Settings, e: Evidence)
    ensures (forall rule :: !Due(settings, e, rule)) <==>
              && e.sanctionsHits == [] && e.pepHits == [] && e.ownerHits == []
              && WithinVolume(settings, e.customer, e.volume)
              && e.confidence >= settings.confidence
              && (forall f :: f in e.flags ==> !ContradictsCritically(f))
              && e.unavailable == []
  {
    assert Due(settings, e, SANCTIONS_HIT) <==> e.sanctionsHits != [];
    assert Due(settings, e, PEP_MATCH) <==> e.pepHits != [];
    assert Due(settings, e, UBO_SANCTIONS_OR_PEP) <==> e.ownerHits != [];
    assert Due(settings, e, HIGH_VOLUME) <==> !WithinVolume(settings, e.customer, e.volume);
    assert Due(settings, e, LOW_CONFIDENCE) <==> e.confidence < settings.confidence;
    assert Due(settings, e, CRITICAL_MISMATCH) <==> exists f | f in e.flags :: ContradictsCritically(f);
    assert Due(settings, e, REGISTRY_UNAVAILABLE) <==> e.unavailable != [];
  }

  lemma NothingDue(settings: Settings, e: Evidence)
    ensures Triggers(settings, e) == [] <==>
              && e.sanctionsHits == [] && e.pepHits == [] && e.ownerHits == []
              && WithinVolume(settings, e.customer, e.volume)
              && e.confidence >= settings.confidence
              && (forall f :: f in e.flags ==> !ContradictsCritically(f))
              && e.unavailable == []
  {
    NothingTriggered(Triggers(settings, e));
    NoRuleDue(settings, e);
    forall rule
      ensures Triggered(Triggers(settings, e), rule) <==> Due(settings, e, rule)
    {
      TriggersExact(settings, e, rule);
    }
  }

  /** The evaluator, if it is on, answers for every document it is asked about. */
  ghost predicate EvaluatorAnswers(w: World, inp: Inputs, es: seq<ExtractionResult>) {
    inp.settings.evaluatorEnabled ==>
      forall j :: 0 <= j < |es| && es[j].error.None? ==>
        Answers(w.evaluator(j, DocumentById(inp.package.documents, es[j].id), es[j]), inp.settings.maxStepRetries + 2)
  }

  lemma {:induction false} EvaluatedUpTo(w: World, inp: Inputs, es: seq<ExtractionResult>, n: nat)
    requires n <= |es|
    ensures EvaluateUpTo(w, inp, es, n).failure.None? <==>
              forall j :: 0 <= j < n && es[j].error.None? ==> Evaluating(w, inp, es, j).result.Some?
  {
    if n > 0 {
      EvaluatedUpTo(w, inp, es, n - 1);
    }
  }

  lemma EvaluatorAnswersExact(w: World, inp: Inputs, es: seq<ExtractionResult>)
    ensures Evaluate(w, inp, es).failure.None? <==> EvaluatorAnswers(w, inp, es)
  {
    EvaluatedUpTo(w, inp, es, |es|);
    forall j | 0 <= j < |es|
      ensures Evaluating(w, inp, es, j).result.Some? <==>
                Answers(w.evaluator(j, DocumentById(inp.package.documents, es[j].id), es[j]), inp.settings.maxStepRetries + 2)
    {
      RetryAnswers(ValidatorStep, w.evaluator(j, DocumentById(inp.package.documents, es[j].id), es[j]),
                   inp.settings.maxStepRetries, true);
    }
  }

  ghost predicate HasType(classified: seq<ClassifiedDocument>, t: DocumentType) {
    exists c :: c in classified && c.docType == t
  }

  /** An individual needs an identity document and a proof of address, a business its
      registration and a declaration of its owners; and every document has a type. */
  ghost predicate PackageClear(w: World, inp: Inputs) {
    && (inp.package.customer == Individual ==>
          HasType(Classified(w, inp), IdDocument) && HasType(Classified(w, inp), ProofOfAddress))
    && (inp.package.customer == Business ==>
          HasType(Classified(w, inp), BusinessRegistration) && HasType(Classified(w, inp), UboDeclaration))
    && forall c :: c in Classified(w, inp) ==> c.docType != UnknownType
  }

  lemma TypePresent(classified: seq<ClassifiedDocument>, t: DocumentType)
    requires t != UnknownType
    ensures t in TypesOf(Known(classified)) <==> HasType(classified, t)
  {
    if c :| c in classified && c.docType == t {
      Progress.KnownFrom(classified, c);
    }
    if t in TypesOf(Known(classified)) {
      var c :| c in Known(classified) && c.docType == t;
      Progress.KnownFrom(classified, c);
    }
  }

  lemma CompleteExactly(w: World, inp: Inputs)
    ensures Complete(w, inp) <==>
              && (inp.package.customer == Individual ==>
                    HasType(Classified(w, inp), IdDocument) && HasType(Classified(w, inp), ProofOfAddress))
              && (inp.package.customer == Business ==>
                    HasType(Classified(w, inp), BusinessRegistration) && HasType(Classified(w, inp), UboDeclaration))
  {
    TypePresent(Classified(w, inp), IdDocument);
    TypePresent(Classified(w, inp), ProofOfAddress);
    TypePresent(Classified(w, inp), BusinessRegistration);
    TypePresent(Classified(w, inp), UboDeclaration);
  }

  lemma PackageClearExact(w: World, inp: Inputs)
    ensures PackageClear(w, inp) <==> Complete(w, inp) && Unknown(Classified(w, inp)) == []
  {
    var classified := Classified(w, inp);
    CompleteExactly(w, inp);
    forall c
      ensures c in Unknown(classified) <==> c in classified && c.docType == UnknownType
    {
      Progress.KnownFrom(classified, c);
    }
    assert Unknown(classified) != [] ==> Unknown(classified)[0] in Unknown(classified);
  }

  /** Every extraction answers within its budget, without an error. */
  ghost predicate ExtractionsClear(w: World, inp: Inputs) {
    forall i: nat :: i < |Tasks(w, inp)| ==>
      exists x :: FirstAnswer(w.extractor(i), inp.settings.maxStepRetries + 2, x) && x.error.None?
  }

  lemma ExtractionClearExact(w: World, inp: Inputs, i: nat)
    ensures !TaskFailed(w, inp, i) <==>
              exists x :: FirstAnswer(w.extractor(i), inp.settings.maxStepRetries + 2, x) && x.error.None?
  {
    var t := TaskTried(w, inp, i);
    RetryAnswers(WorkerStep(Task(w, inp, i).id), w.extractor(i), inp.settings.maxStepRetries, true);
    if t.result.Some? {
      assert FirstAnswer(w.extractor(i), inp.settings.maxStepRetries + 2, t.result.value);
    }
  }

  lemma ExtractionsClearExact(w: World, inp: Inputs, order: seq<nat>)
    requires Schedule(order, |Tasks(w, inp)|)
    ensures ExtractionsClear(w, inp) <==> !AnyFailed(w, inp, order)
  {
    forall i: nat | i < |Tasks(w, inp)|
      ensures !TaskFailed(w, inp, i) <==>
                exists x :: FirstAnswer(w.extractor(i), inp.settings.maxStepRetries + 2, x) && x.error.None?
    {
      ExtractionClearExact(w, inp, i);
    }
    if i :| i in order && TaskFailed(w, inp, i) {
      assert i < |Tasks(w, inp)|;
    }
    if !AnyFailed(w, inp, order) {
      forall i: nat | i < |Tasks(w, inp)|
        ensures exists x :: FirstAnswer(w.extractor(i), inp.settings.maxStepRetries + 2, x) && x.error.None?
      {
        assert i in order && !TaskFailed(w, inp, i);
      }
    }
  }

  /** Nothing stands against the customer, in terms of what the services answer. */
  ghost predicate NothingFound(w: World, inp: Inputs, order: seq<nat>) {
    var es := Results(w, inp, order);
    && StepsClear(w, inp, order)
    && (forall f :: f in AllFlags(w, inp, es) ==> !ContradictsCritically(f))
    && Report(w, inp, es).confidence >= inp.settings.confidence
    && WithinVolume(inp.settings, inp.package.customer, inp.package.applicant.monthlyVolume)
    && AllClean(w, inp, ScreeningNames(inp, es))
  }

  /** Some document has expired. */
  ghost predicate SomeExpired(w: World, inp: Inputs, order: seq<nat>) {
    exists f :: f in AllFlags(w, inp, Results(w, inp, order)) && f.rule == DOC_EXPIRED
  }

  /** The conditions of an automatic approval. */
  ghost predicate Approvable(w: World, inp: Inputs, order: seq<nat>) {
    NothingFound(w, inp, order) && !SomeExpired(w, inp, order)
  }

  /** The conditions that do not concern rules: everything answered, nothing was unreadable
      or missing. */
  ghost predicate StepsClear(w: World, inp: Inputs, order: seq<nat>) {
    && Answers(w.router, inp.settings.maxStepRetries + 2)
    && PackageClear(w, inp)
    && ExtractionsClear(w, inp)
    && EvaluatorAnswers(w, inp, Results(w, inp, order))
  }

  lemma UntroubledExact(w: World, inp: Inputs, order: seq<nat>)
    requires Settled(w, inp, order)
    ensures !Troubled(w, inp, order) && Complete(w, inp) <==> StepsClear(w, inp, order)
  {
    RetryAnswers(RouterStep, w.router, inp.settings.maxStepRetries, true);
    PackageClearExact(w, inp);
    EvaluatorAnswersExact(w, inp, Results(w, inp, order));
    if Routed(w, inp) && Complete(w, inp) {
      ExtractionsClearExact(w, inp, order);
    }
  }

  lemma NothingFoundExact(w: World, inp: Inputs, order: seq<nat>)
    requires Settled(w, inp, order)
    ensures NothingFound(w, inp, order) <==>
              !Troubled(w, inp, order) && Complete(w, inp) && Triggers(inp.settings, EvidenceFor(w, inp, order)) == []
  {
    UntroubledExact(w, inp, order);
    NoTriggersExact(w, inp, Report(w, inp, Results(w, inp, order)), ScreeningNames(inp, Results(w, inp, order)));
  }

  lemma ApprovedExactly(w: World, inp: Inputs, order: seq<nat>)
    requires Settled(w, inp, order)
    ensures SystemDecided(w, inp, order).outcome == Approve <==> Approvable(w, inp, order)
  {
    OutcomeExact(w, inp, order);
    NothingFoundExact(w, inp, order);
    assert SomeExpired(w, inp, order) <==> HasExpired(AllFlags(w, inp, Results(w, inp, order)));
  }

  /** The system rejects if and only if nothing went wrong on the way and either the package
      lacks a document or a document has expired and nothing else stands against the case; and
      the code says which. */
  lemma RejectedExactly(w: World, inp: Inputs, order: seq<nat>)
    requires Settled(w, inp, order)
    ensures var d := SystemDecided(w, inp, order);
            var incomplete := !Troubled(w, inp, order) && !Complete(w, inp);
            var expired := NothingFound(w, inp, order) && SomeExpired(w, inp, order);
            && (d.outcome == Reject <==> incomplete || expired)
            && (incomplete ==> d.codes == [INCOMPLETE_PACKAGE])
            && (expired ==> d.codes == [DOCUMENT_EXPIRED])
            && (d.outcome == Approve ==> d.codes == [ALL_CHECKS_PASSED])
  {
    OutcomeExact(w, inp, order);
    NothingFoundExact(w, inp, order);
    AutomaticCodes(w, inp, order);
    assert SomeExpired(w, inp, order) <==> HasExpired(AllFlags(w, inp, Results(w, inp, order)));
  }

  lemma AutomaticCodes(w: World, inp: Inputs, order: seq<nat>)
    requires Settled(w, inp, order)
    ensures var d := SystemDecided(w, inp, order);
            && (d.outcome == Approve ==> d.codes == [ALL_CHECKS_PASSED])
            && (d.outcome == Reject ==> d.codes == [if Complete(w, inp) then DOCUMENT_EXPIRED else INCOMPLETE_PACKAGE])
  {
    GateState(w, inp, order);
    var st := AtTheGate(w, inp, order);
    EscalationRecall(
      st.completeness,
      if st.validation.Some? then st.validation.value.flags else [],
      if st.risk.Some? then st.risk.value.triggers else [],
      Degraded(st));
  }

  /** A run ends in an approval by the system if and only if all of this holds: the router
      and, if enabled, the evaluator answered within their budgets; every required type is
      present and no document is UNKNOWN; every extraction answered without an error; no
      flag reports a critical contradiction or an expired document; confidence and volume are
      within limits; and the registries answered for every name with nothing. */
  lemma SystemApprovesExactly(w: World, inp: Inputs, choices: seq<Choice>)
    requires Exec(w, inp, choices).Some? && Exec(w, inp, choices).value.pc.Done?
    ensures var c := Exec(w, inp, choices).value;
            c.st.decision.Some?
            && (c.st.decision.value.outcome == Approve && c.st.decision.value.decidedBy == System
                <==> Approvable(w, inp, c.finished))
  {
    RunsKeepInv(w, inp, choices);
    var c := Exec(w, inp, choices).value;
    RunSettled(w, inp, c);
    StateAfterGate(w, inp, c);
    ApprovedExactly(w, inp, c.finished);
    OutcomeExact(w, inp, c.finished);
  }

  /** With an evaluator that only reports discrepancies, as both implementations do, an
      approval means that every flag is a warning and nothing was found ungrounded. */
  lemma ApprovedFlagsAreWarnings(w: World, inp: Inputs, order: seq<nat>)
    requires Settled(w, inp, order) && Approvable(w, inp, order)
    requires forall f :: f in Evaluate(w, inp, Results(w, inp, order)).flags ==> f == DISCREPANCY
    ensures forall f :: f in AllFlags(w, inp, Results(w, inp, order)) ==> f.severity == Warning
    ensures Evaluate(w, inp, Results(w, inp, order)).flags == []
  {
    var es := Results(w, inp, order);
    var rules, grounding := RuleVerdict(w, inp, es).flags, Evaluate(w, inp, es).flags;
    VR.ValidateShaped(w.lib, inp.settings, inp.package.applicant, es);
    assert AllFlags(w, inp, es) == rules + grounding;
    if grounding != [] {
      assert grounding[0] in grounding && grounding[0] in AllFlags(w, inp, es);
      DiscrepancyContradicts();
    }
    forall f | f in AllFlags(w, inp, es)
      ensures f.severity == Warning
    {
      ClearFlagWarns(f);
    }
  }

  lemma DiscrepancyContradicts()
    ensures ContradictsCritically(DISCREPANCY)
  {
  }

  lemma ClearFlagWarns(f: RuleFlag)
    requires VR.RuleShaped(f) && f.rule != DOC_EXPIRED && !ContradictsCritically(f)
    ensures f.severity == Warning
  {
  }
}

/** How much a whole run asks of the outside world. */
module CallBounds {
  import opened Schemas
  import opened Resilience
  import opened Nodes
  import opened Machine
  import Progress

  // --- names ---

  /** Where a name first occurs among the mentions; their number if it does not. */
  function FirstAt(mentions: seq<string>, name: string): (k: nat)
    ensures k <= |mentions|
    ensures k < |mentions| <==> name in mentions
  {
    if mentions == [] then 0
    else
      var front, last := mentions[..|mentions| - 1], mentions[|mentions| - 1];
      assert mentions == front + [last];
      var k := FirstAt(front, name);
      if k < |front| || last == name then k else |mentions|
  }

  /** The names mentioned, each once, in the order of their first occurrence. */
  ghost predicate InFirstOccurrenceOrder(names: seq<string>, mentions: seq<string>) {
    && (forall name :: name in names <==> name in mentions)
    && forall i, j :: 0 <= i < j < |names| ==> FirstAt(mentions, names[i]) < FirstAt(mentions, names[j])
  }

  lemma FirstAtStays(mentions: seq<string>, last: string, name: string)
    ensures name in mentions ==> FirstAt(mentions + [last], name) == FirstAt(mentions, name)
    ensures name !in mentions && name == last ==> FirstAt(mentions + [last], name) == |mentions|
  {
    assert (mentions + [last])[..|mentions|] == mentions;
  }

  lemma AddKeepsOrder(names: seq<string>, mentions: seq<string>, name: string)
    requires InFirstOccurrenceOrder(names, mentions)
    ensures InFirstOccurrenceOrder(Add(names, name), mentions + [name])
  {
    var more := Add(names, name);
    forall i, j | 0 <= i < j < |more|
      ensures FirstAt(mentions + [name], more[i]) < FirstAt(mentions + [name], more[j])
    {
      FirstAtStays(mentions, name, more[i]);
      FirstAtStays(mentions, name, more[j]);
      assert i < |names| && names[i] in names;
      if j < |names| {
        assert names[j] in names;
      }
    }
  }

  function Named(owners: seq<string>): seq<string> {
    if owners == [] then []
    else Named(owners[..|owners| - 1]) + if owners[|owners| - 1] == "" then [] else [owners[|owners| - 1]]
  }

  lemma {:induction false} OwnersKeepOrder(names: seq<string>, mentions: seq<string>, owners: seq<string>)
    requires InFirstOccurrenceOrder(names, mentions)
    ensures InFirstOccurrenceOrder(AddOwners(names, owners), mentions + Named(owners))
  {
    if owners == [] {
      assert mentions + [] == mentions;
    } else {
      var front, last := owners[..|owners| - 1], owners[|owners| - 1];
      OwnersKeepOrder(names, mentions, front);
      if last == "" {
        assert Named(front) + [] == Named(front);
      } else {
        AddKeepsOrder(AddOwners(names, front), mentions + Named(front), last);
        assert mentions + Named(owners) == (mentions + Named(front)) + [last];
      }
    }
  }

  /** All names to screen, with repetitions, in the order in which they are met. */
  function Mentions(inp: Inputs, es: seq<ExtractionResult>): Names {
    if es == [] then DeclaredNames(inp)
    else
      var before, e := Mentions(inp, es[..|es| - 1]), es[|es| - 1];
      if e.error.Some? then before
      else
        Names(
          before.persons + (if e.docType in {IdDocument, ProofOfAddress} && FullName in e.text then [e.text[FullName]] else []),
          before.companies + (if CompanyName in e.text then [e.text[CompanyName]] else []),
          before.owners + Named(e.owners))
  }

  lemma OneDocumentKeepsOrder(n: Names, m: Names, e: ExtractionResult)
    requires e.error.None?
    requires InFirstOccurrenceOrder(n.persons, m.persons)
    requires InFirstOccurrenceOrder(n.companies, m.companies)
    requires InFirstOccurrenceOrder(n.owners, m.owners)
    ensures InFirstOccurrenceOrder(AddNames(n, e).persons,
              m.persons + if e.docType in {IdDocument, ProofOfAddress} && FullName in e.text then [e.text[FullName]] else [])
    ensures InFirstOccurrenceOrder(AddNames(n, e).companies,
              m.companies + if CompanyName in e.text then [e.text[CompanyName]] else [])
    ensures InFirstOccurrenceOrder(AddNames(n, e).owners, m.owners + Named(e.owners))
  {
    if FullName in e.text { AddKeepsOrder(n.persons, m.persons, e.text[FullName]); }
    if CompanyName in e.text { AddKeepsOrder(n.companies, m.companies, e.text[CompanyName]); }
    OwnersKeepOrder(n.owners, m.owners, e.owners);
    assert m.persons + [] == m.persons && m.companies + [] == m.companies;
  }

  /** The names screened are those mentioned, each once, in the order of their first
      occurrence, across the documents and inside each. */
  lemma {:induction false} NamesInFirstOccurrenceOrder(inp: Inputs, es: seq<ExtractionResult>)
    ensures var n, m := ScreeningNames(inp, es), Mentions(inp, es);
            && InFirstOccurrenceOrder(n.persons, m.persons)
            && InFirstOccurrenceOrder(n.companies, m.companies)
            && InFirstOccurrenceOrder(n.owners, m.owners)
  {
    if es != [] {
      var front, e := es[..|es| - 1], es[|es| - 1];
      NamesInFirstOccurrenceOrder(inp, front);
      if e.error.None? {
        OneDocumentKeepsOrder(ScreeningNames(inp, front), Mentions(inp, front), e);
      }
    }
  }

  // --- registries ---

  lemma {:induction false} ScreenCalls(w: World, inp: Inputs, s: Screening, names: seq<string>, n: nat)
    requires n <= |names|
    ensures ScreenUpTo(w, inp, s, names, n).calls <= Times(inp.settings.maxStepRetries + 1, n)
  {
    if n > 0 {
      ScreenCalls(w, inp, s, names, n - 1);
      var script := w.search(s, n - 1, names[n - 1]);
      RetryIsFirstSuccess(ScreeningStep(RegistryOf(s)), script, inp.settings.maxStepRetries, false);
      Distribute(inp.settings.maxStepRetries + 1, n - 1, 1);
    }
  }

  /** `u` calls for each of `n` steps; a product, defined by recursion to keep proofs linear. */
  function Times(u: nat, n: nat): nat {
    if n == 0 then 0 else Times(u, n - 1) + u
  }

  lemma {:induction false} TimesIsProduct(u: nat, n: nat)
    ensures Times(u, n) == u * n
  {
    if n > 0 {
      TimesIsProduct(u, n - 1);
    }
  }

  lemma AtMostProduct(calls: nat, u: nat, n: nat)
    requires calls <= Times(u, n)
    ensures calls <= u * n
  {
    TimesIsProduct(u, n);
  }

  lemma {:induction false} Distribute(u: nat, a: nat, b: nat)
    ensures Times(u, a + b) == Times(u, a) + Times(u, b)
  {
    if b > 0 {
      Distribute(u, a, b - 1);
    }
  }

  /** Searches per attempt: persons and owners go to both registries, companies to one. */
  function Searches(n: Names): nat {
    2 * |n.persons| + |n.companies| + 2 * |n.owners|
  }

  lemma ScreenAllCalls(w: World, inp: Inputs, n: Names)
    ensures var s := ScreenAll(w, inp, n);
            s.main.calls + s.pep.calls + s.owners.calls + s.ownersPep.calls
            <= Times(inp.settings.maxStepRetries + 1, Searches(n))
  {
    var u := inp.settings.maxStepRetries + 1;
    ScreenCalls(w, inp, SanctionsMain, n.persons + n.companies, |n.persons + n.companies|);
    ScreenCalls(w, inp, PepMain, n.persons, |n.persons|);
    ScreenCalls(w, inp, SanctionsOwners, n.owners, |n.owners|);
    ScreenCalls(w, inp, PepOwners, n.owners, |n.owners|);
    Distribute(u, |n.persons + n.companies|, |n.persons|);
    Distribute(u, |n.owners|, |n.owners|);
    Distribute(u, |n.persons + n.companies| + |n.persons|, 2 * |n.owners|);
  }

  /** The steps after the risk scorer. */
  predicate Searched(pc: Pc) {
    pc.AtGate? || pc.AtAutoDecision? || pc.AtHumanReview? || pc.AtFinalize? || pc.Done? || pc.Crashed?
  }

  /** What a run may have spent on searches by the time it gets to `pc`. */
  function RegistryBudget(w: World, inp: Inputs, pc: Pc, order: seq<nat>): nat {
    if Searched(pc) then Times(inp.settings.maxStepRetries + 1, Searches(ScreeningNames(inp, Results(w, inp, order)))) else 0
  }

  lemma ScorerCalls(w: World, inp: Inputs, v: Option<ValidationReport>, es: seq<ExtractionResult>)
    ensures RiskScorer(w, inp, v, es).registryCalls
            <= Times(inp.settings.maxStepRetries + 1, Searches(ScreeningNames(inp, es)))
  {
    var s := ScreenAll(w, inp, ScreeningNames(inp, es));
    ScreenAllCalls(w, inp, ScreeningNames(inp, es));
    assert RiskScorer(w, inp, v, es).registryCalls
           == s.main.calls + s.pep.calls + s.owners.calls + s.ownersPep.calls;
  }

  lemma OnlyScorerSearches(w: World, inp: Inputs, c: Config, ch: Choice)
    requires Enabled(c, ch) && !c.pc.AtRiskScorer?
    ensures EffectOf(w, inp, c, ch).registryCalls == 0
  {
  }

  lemma EdgesKeepBudget(w: World, inp: Inputs, from: Pc, to: Pc, ch: Choice, order: seq<nat>)
    requires Progress.Edge(from, to, ch)
    ensures !ch.Finish? ==> RegistryBudget(w, inp, from, order) <= RegistryBudget(w, inp, to, order)
    ensures from.Extracting? ==> RegistryBudget(w, inp, from, order) == 0
    ensures from.AtRiskScorer? ==> RegistryBudget(w, inp, from, order) == 0 && to == AtGate
  {
  }

  lemma ScorerInputs(w: World, inp: Inputs, c: Config)
    requires Inv(w, inp, c) && c.pc.AtRiskScorer?
    ensures c.st.extractions == Results(w, inp, c.finished)
  {
    ValidatedChannels(w, inp, c.finished);
  }

  lemma ScorerEffect(w: World, inp: Inputs, c: Config)
    requires c.pc == AtRiskScorer
    ensures EffectOf(w, inp, c, Advance) == RiskScorer(w, inp, c.st.validation, c.st.extractions)
  {
  }

  /** What the step taken at `pc` may spend. */
  function StepBudget(w: World, inp: Inputs, pc: Pc, order: seq<nat>): nat {
    if pc.AtRiskScorer? then RegistryBudget(w, inp, AtGate, order) else 0
  }

  lemma ScorerBudgeted(w: World, inp: Inputs, es: seq<ExtractionResult>, order: seq<nat>, calls: nat)
    requires es == Results(w, inp, order)
    requires calls <= Times(inp.settings.maxStepRetries + 1, Searches(ScreeningNames(inp, es)))
    ensures calls <= StepBudget(w, inp, AtRiskScorer, order)
  {
  }

  lemma RegistryStep(w: World, inp: Inputs, c: Config, ch: Choice)
    requires Inv(w, inp, c) && Enabled(c, ch)
    ensures EffectOf(w, inp, c, ch).registryCalls <= StepBudget(w, inp, c.pc, c.finished)
  {
    var calls := EffectOf(w, inp, c, ch).registryCalls;
    if c.pc == AtRiskScorer {
      ScorerInputs(w, inp, c);
      ScorerEffect(w, inp, c);
      ScorerCalls(w, inp, c.st.validation, c.st.extractions);
      ScorerBudgeted(w, inp, c.st.extractions, c.finished, calls);
    } else {
      OnlyScorerSearches(w, inp, c, ch);
    }
  }

  lemma BudgetAlongEdge(
    w: World, inp: Inputs, from: Pc, to: Pc, ch: Choice, order: seq<nat>, calls: nat, more: nat)
    requires Progress.Edge(from, to, ch) && (ch.Finish? ==> from.Extracting?)
    requires calls <= RegistryBudget(w, inp, from, order) && more <= StepBudget(w, inp, from, order)
    ensures calls + more <= RegistryBudget(w, inp, to, if ch.Finish? then order + [ch.task] else order)
  {
    EdgesKeepBudget(w, inp, from, to, ch, order);
  }

  lemma {:induction false} RegistryCallsByStep(w: World, inp: Inputs, choices: seq<Choice>)
    requires Exec(w, inp, choices).Some?
    ensures var c := Exec(w, inp, choices).value; c.registryCalls <= RegistryBudget(w, inp, c.pc, c.finished)
  {
    if choices != [] {
      var last := |choices| - 1;
      var c := Exec(w, inp, choices[..last]).value;
      RegistryCallsByStep(w, inp, choices[..last]);
      RunsKeepInv(w, inp, choices[..last]);
      var e := EffectOf(w, inp, c, choices[last]);
      RegistryStep(w, inp, c, choices[last]);
      Progress.StepsFollowEdges(w, inp, c, choices[last]);
      BudgetAlongEdge(w, inp, c.pc, e.next, choices[last], c.finished, c.registryCalls, e.registryCalls);
      assert Exec(w, inp, choices) == Some(After(c, choices[last], e));
    }
  }

  /** At most (R + 1)(2P + C + 2O) for P persons, C companies and O owners. */
  ghost predicate WithinBound(inp: Inputs, n: Names, calls: nat) {
    calls <= (inp.settings.maxStepRetries + 1) * (2 * |n.persons| + |n.companies| + 2 * |n.owners|)
  }

  lemma TimesIsBound(inp: Inputs, n: Names, calls: nat)
    requires calls <= Times(inp.settings.maxStepRetries + 1, Searches(n))
    ensures WithinBound(inp, n, calls)
  {
    AtMostProduct(calls, inp.settings.maxStepRetries + 1, Searches(n));
  }

  lemma BudgetIsProduct(w: World, inp: Inputs, pc: Pc, order: seq<nat>, calls: nat)
    requires calls <= RegistryBudget(w, inp, pc, order)
    ensures WithinBound(inp, ScreeningNames(inp, Results(w, inp, order)), calls)
    ensures !Searched(pc) ==> calls == 0
  {
    TimesIsBound(inp, ScreeningNames(inp, Results(w, inp, order)), calls);
  }

  /** A run makes no more calls to registries than the names it screens account for, and none
      before the risk scorer. */
  lemma RegistryCallsBounded(w: World, inp: Inputs, choices: seq<Choice>)
    requires Exec(w, inp, choices).Some?
    ensures var c := Exec(w, inp, choices).value;
            && WithinBound(inp, ScreeningNames(inp, Results(w, inp, c.finished)), c.registryCalls)
            && (!Searched(c.pc) ==> c.registryCalls == 0)
  {
    var c := Exec(w, inp, choices).value;
    RegistryCallsByStep(w, inp, choices);
    BudgetIsProduct(w, inp, c.pc, c.finished, c.registryCalls);
  }

  // --- services ---

  /** How many retried service steps a run has been through: the router, the workers, the
      evaluation of each document, the narrator. */
  function Visits(pc: Pc, workers: nat): nat {
    match pc
    case AtIntake => 0
    case AtRouter => 0
    case AtOrchestrator => 1
    case Extracting(_) => 1 + workers
    case AtValidator => 1 + workers
    case AtRiskScorer => 1 + 2 * workers
    case AtHandleError => 1 + 2 * workers
    case _ => 2 + 2 * workers
  }

  lemma {:induction false} EvaluationCalls(w: World, inp: Inputs, es: seq<ExtractionResult>, n: nat)
    requires n <= |es|
    ensures EvaluateUpTo(w, inp, es, n).calls <= Times(inp.settings.maxStepRetries + 2, n)
  {
    if n > 0 {
      EvaluationCalls(w, inp, es, n - 1);
      var script := w.evaluator(n - 1, DocumentById(inp.package.documents, es[n - 1].id), es[n - 1]);
      RetryIsFirstSuccess(ValidatorStep, script, inp.settings.maxStepRetries, true);
      Distribute(inp.settings.maxStepRetries + 2, n - 1, 1);
    }
  }

  lemma ValidatorCalls(w: World, inp: Inputs, es: seq<ExtractionResult>)
    ensures Validator(w, inp, es).serviceCalls <= Times(inp.settings.maxStepRetries + 2, |es|)
  {
    EvaluationCalls(w, inp, es, |es|);
    ValidatorNext(w, inp, es);
  }

  lemma SingleCalls(w: World, inp: Inputs, i: nat)
    ensures Routing(w, inp).Calls() <= inp.settings.maxStepRetries + 2
    ensures Narrating(w, inp).Calls() <= inp.settings.maxStepRetries + 2
    ensures TaskTried(w, inp, i).Calls() <= inp.settings.maxStepRetries + 2
  {
    RetryIsFirstSuccess(RouterStep, w.router, inp.settings.maxStepRetries, true);
    RetryIsFirstSuccess(NarratorStep, w.narrator, inp.settings.maxStepRetries, true);
    RetryIsFirstSuccess(WorkerStep(Task(w, inp, i).id), w.extractor(i), inp.settings.maxStepRetries, true);
  }

  /** The retried service steps in the step taken at `pc`. */
  function VisitsOf(pc: Pc, workers: nat): nat {
    if pc.AtRouter? || pc.Extracting? || pc.AtRiskScorer? then 1
    else if pc.AtValidator? then workers
    else 0
  }

  /** A step makes at most R + 2 calls for each retried service step in it. */
  lemma StepCalls(w: World, inp: Inputs, c: Config, ch: Choice)
    requires Inv(w, inp, c) && Enabled(c, ch)
    ensures EffectOf(w, inp, c, ch).serviceCalls
            <= Times(inp.settings.maxStepRetries + 2, VisitsOf(c.pc, |c.finished|))
  {
    if c.pc.Extracting? {
      WorkerCalls(w, inp, c, ch.task);
    } else if c.pc.AtValidator? {
      GatheredChannels(w, inp, c.finished);
      Progress.ResultsLength(w, inp, c.finished);
      ValidatorCalls(w, inp, c.st.extractions);
    } else {
      OtherCalls(w, inp, c, ch);
    }
  }

  lemma WorkerCalls(w: World, inp: Inputs, c: Config, i: nat)
    requires Inv(w, inp, c) && Enabled(c, Finish(i))
    ensures EffectOf(w, inp, c, Finish(i)).serviceCalls <= inp.settings.maxStepRetries + 2
  {
    GatheredChannels(w, inp, c.finished);
    SingleCalls(w, inp, i);
  }

  lemma OtherCalls(w: World, inp: Inputs, c: Config, ch: Choice)
    requires Enabled(c, ch) && !c.pc.Extracting? && !c.pc.AtValidator?
    ensures EffectOf(w, inp, c, ch).serviceCalls
            <= if c.pc.AtRouter? || c.pc.AtRiskScorer? then inp.settings.maxStepRetries + 2 else 0
  {
    SingleCalls(w, inp, 0);
  }

  lemma VisitsGrow(from: Pc, to: Pc, ch: Choice, workers: nat)
    requires Progress.Edge(from, to, ch) && (ch.Finish? ==> from.Extracting?)
    ensures Visits(from, workers) + VisitsOf(from, workers) <= Visits(to, workers + if ch.Finish? then 1 else 0)
  {
  }

  lemma Spend(u: nat, visits: nat, more: nat, after: nat, calls: nat, spent: nat)
    requires calls <= Times(u, visits) && spent <= Times(u, more) && visits + more <= after
    ensures calls + spent <= Times(u, after)
  {
    Distribute(u, visits, more);
    Distribute(u, visits + more, after - visits - more);
  }

  lemma ServiceStep(u: nat, from: Pc, to: Pc, ch: Choice, workers: nat, calls: nat, more: nat)
    requires Progress.Edge(from, to, ch) && (ch.Finish? ==> from.Extracting?)
    requires calls <= Times(u, Visits(from, workers)) && more <= Times(u, VisitsOf(from, workers))
    ensures calls + more <= Times(u, Visits(to, workers + if ch.Finish? then 1 else 0))
  {
    VisitsGrow(from, to, ch, workers);
    Spend(u, Visits(from, workers), VisitsOf(from, workers), Visits(to, workers + if ch.Finish? then 1 else 0), calls, more);
  }

  lemma {:induction false} ServiceCallsByVisits(w: World, inp: Inputs, choices: seq<Choice>)
    requires Exec(w, inp, choices).Some?
    ensures var c := Exec(w, inp, choices).value;
            c.serviceCalls <= Times(inp.settings.maxStepRetries + 2, Visits(c.pc, |c.finished|))
  {
    if choices != [] {
      var last := |choices| - 1;
      var c := Exec(w, inp, choices[..last]).value;
      ServiceCallsByVisits(w, inp, choices[..last]);
      RunsKeepInv(w, inp, choices[..last]);
      var e := EffectOf(w, inp, c, choices[last]);
      StepCalls(w, inp, c, choices[last]);
      Progress.StepsFollowEdges(w, inp, c, choices[last]);
      ServiceStep(inp.settings.maxStepRetries + 2, c.pc, e.next, choices[last], |c.finished|, c.serviceCalls, e.serviceCalls);
      assert Exec(w, inp, choices) == Some(After(c, choices[last], e));
    }
  }

  lemma {:induction false} KnownAtMost(classified: seq<ClassifiedDocument>)
    ensures |Known(classified)| <= |classified|
  {
    if classified != [] {
      KnownAtMost(classified[..|classified| - 1]);
    }
  }

  lemma FinishedAtMost(w: World, inp: Inputs, c: Config)
    requires Inv(w, inp, c)
    ensures |c.finished| <= |inp.package.documents|
  {
    KnownAtMost(Classified(w, inp));
    if c.finished != [] {
      Progress.DistinctCount(c.finished);
      Progress.ElementsExact(c.finished);
      assert Progress.Elements(c.finished) <= Indices(|Tasks(w, inp)|);
      Progress.Subset(Progress.Elements(c.finished), Indices(|Tasks(w, inp)|));
    }
  }

  lemma ServiceCallsByDocuments(w: World, inp: Inputs, choices: seq<Choice>)
    requires Exec(w, inp, choices).Some?
    ensures Exec(w, inp, choices).value.serviceCalls
            <= Times(inp.settings.maxStepRetries + 2, 2 * |inp.package.documents| + 2)
  {
    var c := Exec(w, inp, choices).value;
    RunsKeepInv(w, inp, choices);
    ServiceCallsByVisits(w, inp, choices);
    FinishedAtMost(w, inp, c);
    Spend(inp.settings.maxStepRetries + 2, Visits(c.pc, |c.finished|), 0, 2 * |inp.package.documents| + 2, c.serviceCalls, 0);
  }

  /** For N documents a run makes at most (R + 2)(2N + 2) calls to model services. */
  lemma ServiceCallsBounded(w: World, inp: Inputs, choices: seq<Choice>)
    requires Exec(w, inp, choices).Some?
    ensures Exec(w, inp, choices).value.serviceCalls
            <= (inp.settings.maxStepRetries + 2) * (2 * |inp.package.documents| + 2)
  {
    ServiceCallsByDocuments(w, inp, choices);
    AtMostProduct(Exec(w, inp, choices).value.serviceCalls, inp.settings.maxStepRetries + 2, 2 * |inp.package.documents| + 2);
  }
}

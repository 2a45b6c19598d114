/** What the evaluator can change: it makes escalation more likely, never less, and data
    that is not in its document always ends before a human. */
module EvaluatorEffect {
  import opened Schemas
  import opened Text
  import opened Resilience
  import opened Services
  import opened RiskRules
  import opened Nodes
  import opened Machine
  import opened Gatekeeping
  import opened Schedules
  import Confidence
  import Progress

  /** The same inputs with the evaluator switched on or off. */
  function With(inp: Inputs, enabled: bool): Inputs {
    inp.(settings := inp.settings.(evaluatorEnabled := enabled))
  }

  // --- what does not depend on the switch ---

  lemma {:induction false} ResultsSame(w: World, inp: Inputs, order: seq<nat>)
    ensures Results(w, With(inp, true), order) == Results(w, With(inp, false), order)
  {
    if order != [] {
      ResultsSame(w, inp, order[..|order| - 1]);
    }
  }

  lemma RoutingSame(w: World, inp: Inputs)
    ensures Routed(w, With(inp, true)) <==> Routed(w, With(inp, false))
    ensures Classified(w, With(inp, true)) == Classified(w, With(inp, false))
    ensures Complete(w, With(inp, true)) <==> Complete(w, With(inp, false))
  {
  }

  lemma {:induction false} VerdictSame(w: World, inp: Inputs, es: seq<ExtractionResult>)
    ensures RuleVerdict(w, With(inp, true), es) == RuleVerdict(w, With(inp, false), es)
  {
    if es != [] {
      VerdictSame(w, inp, es[..|es| - 1]);
    }
  }

  lemma {:induction false} ScreenUpToSame(w: World, inp: Inputs, s: Screening, names: seq<string>, n: nat)
    requires n <= |names|
    ensures ScreenUpTo(w, With(inp, true), s, names, n) == ScreenUpTo(w, With(inp, false), s, names, n)
  {
    if n > 0 {
      ScreenUpToSame(w, inp, s, names, n - 1);
    }
  }

  lemma {:induction false} NamesUnchanged(inp: Inputs, es: seq<ExtractionResult>)
    ensures ScreeningNames(With(inp, true), es) == ScreeningNames(With(inp, false), es)
  {
    if es != [] {
      NamesUnchanged(inp, es[..|es| - 1]);
    }
  }

  lemma ScreeningsSame(w: World, inp: Inputs, order: seq<nat>)
    ensures ScreeningsOf(w, With(inp, true), order) == ScreeningsOf(w, With(inp, false), order)
  {
    ResultsSame(w, inp, order);
    var es := Results(w, With(inp, true), order);
    NamesUnchanged(inp, es);
    var n := ScreeningNames(With(inp, true), es);
    ScreenUpToSame(w, inp, SanctionsMain, n.persons + n.companies, |n.persons + n.companies|);
    ScreenUpToSame(w, inp, PepMain, n.persons, |n.persons|);
    ScreenUpToSame(w, inp, SanctionsOwners, n.owners, |n.owners|);
    ScreenUpToSame(w, inp, PepOwners, n.owners, |n.owners|);
  }

  lemma SettledSame(w: World, inp: Inputs, order: seq<nat>)
    requires Settled(w, With(inp, true), order)
    ensures Settled(w, With(inp, false), order)
  {
    RoutingSame(w, inp);
    if Routed(w, With(inp, true)) && Complete(w, With(inp, true)) {
      ResultsSame(w, inp, order);
      ValidatorNext(w, With(inp, true), Results(w, With(inp, true), order));
      ValidatorNext(w, With(inp, false), Results(w, With(inp, false), order));
    }
  }

  // --- monotonicity ---

  /** Switching the evaluator on keeps the flags there were and never raises confidence. */
  lemma ReportsCompare(w: World, inp: Inputs, order: seq<nat>)
    ensures var on := Report(w, With(inp, true), Results(w, With(inp, true), order));
            var off := Report(w, With(inp, false), Results(w, With(inp, false), order));
            && on.confidence <= off.confidence
            && on.flags == off.flags + Evaluate(w, With(inp, true), Results(w, With(inp, true), order)).flags
  {
    ResultsSame(w, inp, order);
    var es := Results(w, With(inp, true), order);
    VerdictSame(w, inp, es);
    var rules := RuleVerdict(w, With(inp, true), es).flags;
    var grounding := Evaluate(w, With(inp, true), es).flags;
    assert rules + [] == rules && [] + grounding == grounding;
    Confidence.ConfidenceMonotone(es, [], rules, grounding, grounding,
      ExtractionResult("", UnknownType, map[], [], [], Some("")));
  }

  lemma DueStays(w: World, inp: Inputs, order: seq<nat>, rule: RuleId)
    requires Due(inp.settings, EvidenceFor(w, With(inp, false), order), rule)
    ensures Due(inp.settings, EvidenceFor(w, With(inp, true), order), rule)
  {
    ReportsCompare(w, inp, order);
    ScreeningsSame(w, inp, order);
    var off := EvidenceFor(w, With(inp, false), order);
    var on := EvidenceFor(w, With(inp, true), order);
    if rule == CRITICAL_MISMATCH {
      var f :| f in off.flags && ContradictsCritically(f);
      assert f in on.flags;
    }
  }

  /** Every rule triggered without the evaluator is triggered with it. */
  lemma TriggersStay(w: World, inp: Inputs, order: seq<nat>)
    ensures var off := Triggers(With(inp, false).settings, EvidenceFor(w, With(inp, false), order));
            var on := Triggers(With(inp, true).settings, EvidenceFor(w, With(inp, true), order));
            && (forall rule :: Triggered(off, rule) ==> Triggered(on, rule))
            && (off != [] ==> on != [])
  {
    var off := Triggers(With(inp, false).settings, EvidenceFor(w, With(inp, false), order));
    var on := Triggers(With(inp, true).settings, EvidenceFor(w, With(inp, true), order));
    forall rule | Triggered(off, rule)
      ensures Triggered(on, rule)
    {
      TriggersExact(With(inp, false).settings, EvidenceFor(w, With(inp, false), order), rule);
      DueStays(w, With(inp, true), order, rule);
      TriggersExact(With(inp, true).settings, EvidenceFor(w, With(inp, true), order), rule);
    }
    NothingTriggered(off);
    NothingTriggered(on);
  }

  lemma TroubleStays(w: World, inp: Inputs, order: seq<nat>)
    requires Troubled(w, With(inp, false), order)
    ensures Troubled(w, With(inp, true), order)
  {
    RoutingSame(w, inp);
    if AnyFailed(w, With(inp, false), order) {
      var i :| i in order && TaskFailed(w, With(inp, false), i);
      assert TaskFailed(w, With(inp, true), i);
    }
  }

  /** On the same package, extractions and answers: what escalates without the evaluator
      escalates with it, also when the evaluator exhausts its retries; and what is not
      approved without it is not approved with it. */
  lemma EvaluatorOnlyEscalates(w: World, inp: Inputs, order: seq<nat>)
    requires Settled(w, With(inp, true), order)
    ensures SystemDecided(w, With(inp, false), order).outcome == Escalate ==>
              SystemDecided(w, With(inp, true), order).outcome == Escalate
    ensures SystemDecided(w, With(inp, true), order).outcome == Approve ==>
              SystemDecided(w, With(inp, false), order).outcome == Approve
  {
    SettledSame(w, inp, order);
    OutcomeExact(w, With(inp, false), order);
    OutcomeExact(w, With(inp, true), order);
    RoutingSame(w, inp);
    TriggersStay(w, inp, order);
    ReportsCompare(w, inp, order);
    if Troubled(w, With(inp, false), order) {
      TroubleStays(w, inp, order);
    } else if SystemDecided(w, With(inp, true), order).outcome == Approve {
      ExpiryStays(AllFlags(w, With(inp, false), Results(w, With(inp, false), order)),
                  Evaluate(w, With(inp, true), Results(w, With(inp, true), order)).flags);
    }
  }

  lemma ExpiryStays(flags: seq<RuleFlag>, more: seq<RuleFlag>)
    ensures HasExpired(flags) ==> HasExpired(flags + more)
  {
    if f :| f in flags && f.rule == DOC_EXPIRED {
      assert f in flags + more;
    }
  }

  /** The same for whole runs. With workers finishing in one order any world will do; with
      different orders, one whose evaluator and registries answer by what they are asked. */
  lemma EvaluatorOnlyEscalatesRuns(w: World, inp: Inputs, without: seq<Choice>, with: seq<Choice>)
    requires Exec(w, With(inp, false), without).Some? && Exec(w, With(inp, true), with).Some?
    requires DecidedByNow(Exec(w, With(inp, false), without).value)
    requires DecidedByNow(Exec(w, With(inp, true), with).value)
    requires || Exec(w, With(inp, false), without).value.finished == Exec(w, With(inp, true), with).value.finished
             || Stateless(w)
    ensures var c, d := Exec(w, With(inp, false), without).value, Exec(w, With(inp, true), with).value;
            var off, on := SystemDecided(w, With(inp, false), c.finished), SystemDecided(w, With(inp, true), d.finished);
            && ClosingOrSystem(c, off) && ClosingOrSystem(d, on)
            && (off.outcome == Escalate ==> on.outcome == Escalate)
            && (on.outcome == Approve ==> off.outcome == Approve)
  {
    RunsKeepInv(w, With(inp, false), without);
    RunsKeepInv(w, With(inp, true), with);
    var c, d := Exec(w, With(inp, false), without).value, Exec(w, With(inp, true), with).value;
    RunSettled(w, With(inp, false), c);
    RunSettled(w, With(inp, true), d);
    StateAfterGate(w, With(inp, false), c);
    StateAfterGate(w, With(inp, true), d);
    SettledSame(w, inp, d.finished);
    EvaluatorOnlyEscalates(w, inp, d.finished);
    if c.finished != d.finished {
      DecisionsAgree(w, With(inp, false), c.finished, d.finished);
    }
  }

  lemma SilentReports(w: World, inp: Inputs, order: seq<nat>)
    requires Evaluate(w, With(inp, true), Results(w, With(inp, true), order)).flags == []
    ensures Report(w, With(inp, true), Results(w, With(inp, true), order))
            == Report(w, With(inp, false), Results(w, With(inp, false), order))
    ensures EvidenceFor(w, With(inp, true), order) == EvidenceFor(w, With(inp, false), order)
  {
    ResultsSame(w, inp, order);
    VerdictSame(w, inp, Results(w, With(inp, true), order));
    ScreeningsSame(w, inp, order);
  }

  lemma TroubleSame(w: World, inp: Inputs, order: seq<nat>)
    requires !EvaluatorFailed(w, With(inp, true), order)
    ensures Troubled(w, With(inp, true), order) <==> Troubled(w, With(inp, false), order)
    ensures Assessed(w, With(inp, true), order) <==> Assessed(w, With(inp, false), order)
  {
    RoutingSame(w, inp);
    if i :| i in order && TaskFailed(w, With(inp, true), i) { assert TaskFailed(w, With(inp, false), i); }
    if i :| i in order && TaskFailed(w, With(inp, false), i) { assert TaskFailed(w, With(inp, true), i); }
  }

  /** An evaluator that answers and finds nothing leaves the decision as it is without one. */
  lemma SilentEvaluatorChangesNothing(w: World, inp: Inputs, order: seq<nat>)
    requires Settled(w, With(inp, true), order)
    requires var ev := Evaluate(w, With(inp, true), Results(w, With(inp, true), order));
             ev.failure.None? && ev.flags == []
    ensures SystemDecided(w, With(inp, true), order) == SystemDecided(w, With(inp, false), order)
  {
    SettledSame(w, inp, order);
    RoutingSame(w, inp);
    TroubleSame(w, inp, order);
    SilentReports(w, inp, order);
    SameTriggers(With(inp, true).settings, With(inp, false).settings, EvidenceFor(w, With(inp, true), order));
    GateState(w, With(inp, true), order);
    GateState(w, With(inp, false), order);
  }

  lemma SameTriggers(s: Settings, t: Settings, e: Evidence)
    requires s.(evaluatorEnabled := true) == t.(evaluatorEnabled := true)
    ensures Triggers(s, e) == Triggers(t, e)
  {
  }

  // --- ungrounded data ---

  /** The evaluator answers, when it does, what `VerifyGrounding` promises. */
  ghost predicate ChecksGrounding(w: World) {
    forall j, d, e, k :: w.evaluator(j, d, e)(k).Answer? ==> GroundingAnswer(w.lib, d, e, w.evaluator(j, d, e)(k).value)
  }

  ghost predicate GroundingAnswer(lib: Library, d: InputDocument, e: ExtractionResult, flags: seq<RuleFlag>) {
    && (forall f :: f in flags ==> f == DISCREPANCY)
    && (flags != [] <==> Ungrounded(lib, d, e))
  }

  /** A readable extraction that claims something its document does not say. */
  ghost predicate Fabricated(w: World, inp: Inputs, e: ExtractionResult) {
    e.error.None? && Ungrounded(w.lib, DocumentById(inp.package.documents, e.id), e)
  }

  lemma EvaluatingAnswer(w: World, inp: Inputs, es: seq<ExtractionResult>, j: nat)
    requires ChecksGrounding(w) && j < |es| && Evaluating(w, inp, es, j).result.Some?
    ensures GroundingAnswer(w.lib, DocumentById(inp.package.documents, es[j].id), es[j],
                            Evaluating(w, inp, es, j).result.value)
  {
    var script := w.evaluator(j, DocumentById(inp.package.documents, es[j].id), es[j]);
    TryFromSucceeded(ValidatorStep, script, 1, Budget(inp.settings.maxStepRetries, true), 1 + inp.settings.maxStepRetries);
  }

  /** What document `j` contributes to the evaluator's flags. */
  function OwnFlags(w: World, inp: Inputs, es: seq<ExtractionResult>, j: nat): seq<RuleFlag>
    requires j < |es|
  {
    if es[j].error.Some? then []
    else
      var t := Evaluating(w, inp, es, j);
      if t.result.Some? then t.result.value else []
  }

  lemma OwnStep(w: World, inp: Inputs, es: seq<ExtractionResult>, j: nat)
    requires j < |es| && EvaluateUpTo(w, inp, es, j + 1).failure.None?
    ensures EvaluateUpTo(w, inp, es, j).failure.None?
    ensures EvaluateUpTo(w, inp, es, j + 1).flags == EvaluateUpTo(w, inp, es, j).flags + OwnFlags(w, inp, es, j)
  {
  }

  lemma FlaggedOne(w: World, inp: Inputs, es: seq<ExtractionResult>, j: nat)
    requires ChecksGrounding(w) && j < |es| && EvaluateUpTo(w, inp, es, j + 1).failure.None?
    ensures forall f :: f in OwnFlags(w, inp, es, j) ==> f == DISCREPANCY
    ensures OwnFlags(w, inp, es, j) != [] <==> Fabricated(w, inp, es[j])
  {
    if es[j].error.None? {
      OwnStep(w, inp, es, j);
      EvaluatingAnswer(w, inp, es, j);
    }
  }

  lemma {:induction false} FlaggedFrom(w: World, inp: Inputs, es: seq<ExtractionResult>, n: nat) returns (j: nat)
    requires n <= |es| && EvaluateUpTo(w, inp, es, n).failure.None? && EvaluateUpTo(w, inp, es, n).flags != []
    ensures j < n && EvaluateUpTo(w, inp, es, j + 1).failure.None? && OwnFlags(w, inp, es, j) != []
  {
    OwnStep(w, inp, es, n - 1);
    if OwnFlags(w, inp, es, n - 1) != [] {
      j := n - 1;
    } else {
      j := FlaggedFrom(w, inp, es, n - 1);
    }
  }

  lemma {:induction false} FlaggedTo(w: World, inp: Inputs, es: seq<ExtractionResult>, n: nat, j: nat)
    requires j < n <= |es| && EvaluateUpTo(w, inp, es, n).failure.None?
    ensures EvaluateUpTo(w, inp, es, j + 1).failure.None?
    ensures OwnFlags(w, inp, es, j) != [] ==> EvaluateUpTo(w, inp, es, n).flags != []
  {
    OwnStep(w, inp, es, n - 1);
    if j < n - 1 {
      FlaggedTo(w, inp, es, n - 1, j);
    }
  }

  lemma {:induction false} OnlyDiscrepancies(w: World, inp: Inputs, es: seq<ExtractionResult>, n: nat, f: RuleFlag)
    requires ChecksGrounding(w) && n <= |es| && EvaluateUpTo(w, inp, es, n).failure.None?
    requires f in EvaluateUpTo(w, inp, es, n).flags
    ensures f == DISCREPANCY
  {
    OwnStep(w, inp, es, n - 1);
    if f in OwnFlags(w, inp, es, n - 1) {
      FlaggedOne(w, inp, es, n - 1);
    } else {
      OnlyDiscrepancies(w, inp, es, n - 1, f);
    }
  }

  /** The case is flagged if and only if some readable extraction claims something that its
      document does not say. */
  lemma FlaggedExactly(w: World, inp: Inputs, order: seq<nat>)
    requires ChecksGrounding(w) && inp.settings.evaluatorEnabled && !EvaluatorFailed(w, inp, order)
    ensures DISCREPANCY in Evaluate(w, inp, Results(w, inp, order)).flags
            <==> exists i :: i in order && Fabricated(w, inp, TaskResult(w, inp, i))
  {
    var es := Results(w, inp, order);
    var flags := Evaluate(w, inp, es).flags;
    if flags != [] {
      var j := FlaggedFrom(w, inp, es, |es|);
      FlaggedOne(w, inp, es, j);
      var i := Progress.ResultFrom(w, inp, order, es[j]);
      OnlyDiscrepancies(w, inp, es, |es|, flags[0]);
    }
    if i :| i in order && Fabricated(w, inp, TaskResult(w, inp, i)) {
      Progress.ResultTo(w, inp, order, i);
      var j :| 0 <= j < |es| && es[j] == TaskResult(w, inp, i);
      FlaggedTo(w, inp, es, |es|, j);
      FlaggedOne(w, inp, es, j);
      OnlyDiscrepancies(w, inp, es, |es|, flags[0]);
    }
  }

  lemma DueCodes(settings: Settings, e: Evidence, rule: RuleId)
    ensures rule in SortedCodes(Triggers(settings, e)) <==> Due(settings, e, rule)
    ensures Due(settings, e, rule) ==> Triggers(settings, e) != []
  {
    TriggersExact(settings, e, rule);
    SortedCodesExact(Triggers(settings, e), rule);
    NothingTriggered(Triggers(settings, e));
  }

  /** A rule that is due escalates, and is among the reason codes. */
  lemma DueEscalates(w: World, inp: Inputs, order: seq<nat>, rule: RuleId)
    requires Settled(w, inp, order) && Assessed(w, inp, order)
    requires Due(inp.settings, EvidenceFor(w, inp, order), rule)
    ensures SystemDecided(w, inp, order).outcome == Escalate
    ensures rule in SystemDecided(w, inp, order).codes
  {
    OutcomeExact(w, inp, order);
    DueCodes(inp.settings, EvidenceFor(w, inp, order), rule);
  }

  lemma DiscrepancyDue(w: World, inp: Inputs, order: seq<nat>)
    requires DISCREPANCY in Evaluate(w, inp, Results(w, inp, order)).flags
    ensures Due(inp.settings, EvidenceFor(w, inp, order), CRITICAL_MISMATCH)
    ensures Report(w, inp, Results(w, inp, order)).confidence <= 0.4
  {
    var es := Results(w, inp, order);
    Confidence.Caps(es, Evaluate(w, inp, es).flags, AllFlags(w, inp, es));
    assert DISCREPANCY in AllFlags(w, inp, es) && ContradictsCritically(DISCREPANCY);
  }

  /** Any discrepancy caps confidence at 0.4, fires CRITICAL_MISMATCH, and LOW_CONFIDENCE
      for thresholds above 0.4, and escalates. */
  lemma DiscrepancyEscalates(w: World, inp: Inputs, order: seq<nat>)
    requires Settled(w, inp, order) && Assessed(w, inp, order)
    requires DISCREPANCY in Evaluate(w, inp, Results(w, inp, order)).flags
    ensures var d := SystemDecided(w, inp, order);
            && d.outcome == Escalate
            && CRITICAL_MISMATCH in d.codes
            && Report(w, inp, Results(w, inp, order)).confidence <= 0.4
            && (inp.settings.confidence > 0.4 ==> LOW_CONFIDENCE in d.codes)
  {
    DiscrepancyDue(w, inp, order);
    DueEscalates(w, inp, order, CRITICAL_MISMATCH);
    if inp.settings.confidence > 0.4 {
      assert Due(inp.settings, EvidenceFor(w, inp, order), LOW_CONFIDENCE);
      DueEscalates(w, inp, order, LOW_CONFIDENCE);
    }
  }

  /** Data that is not in its document always ends before a human: the case escalates
      whether the evaluator finds it or fails. */
  lemma FabricationEscalates(w: World, inp: Inputs, choices: seq<Choice>, i: nat)
    requires ChecksGrounding(w) && inp.settings.evaluatorEnabled
    requires Exec(w, inp, choices).Some? && DecidedByNow(Exec(w, inp, choices).value)
    requires Routed(w, inp) && Complete(w, inp)
    requires i < |Tasks(w, inp)| && Fabricated(w, inp, TaskResult(w, inp, i))
    ensures var c := Exec(w, inp, choices).value;
            var system := SystemDecided(w, inp, c.finished);
            && ClosingOrSystem(c, system)
            && system.outcome == Escalate
            && (!EvaluatorFailed(w, inp, c.finished) ==>
                  CRITICAL_MISMATCH in system.codes
                  && Report(w, inp, Results(w, inp, c.finished)).confidence <= 0.4)
  {
    RunsKeepInv(w, inp, choices);
    var c := Exec(w, inp, choices).value;
    RunSettled(w, inp, c);
    StateAfterGate(w, inp, c);
    if EvaluatorFailed(w, inp, c.finished) {
      OutcomeExact(w, inp, c.finished);
    } else {
      assert i in c.finished;
      FlaggedExactly(w, inp, c.finished);
      DiscrepancyEscalates(w, inp, c.finished);
    }
  }
}

/** What a run leaves in the audit trail. */
module Trails {
  import opened Schemas
  import opened Audit
  import opened Channels
  import opened Nodes
  import opened Machine
  import opened Gatekeeping
  import Progress

  // --- how a trail ends ---

  const CLOSING_KINDS := {DecisionMade, HumanDecided, CaseCompleted}

  predicate OrdinaryEvent(inp: Inputs, e: AuditEvent) {
    e.caseId == inp.caseId && e.kind !in CLOSING_KINDS
  }

  /** Events of the case, none of which closes it. */
  ghost predicate Ordinary(inp: Inputs, events: seq<AuditEvent>) {
    forall e :: e in events ==> OrdinaryEvent(inp, e)
  }

  lemma OrdinaryConcat(inp: Inputs, a: seq<AuditEvent>, b: seq<AuditEvent>)
    ensures Ordinary(inp, a + b) <==> Ordinary(inp, a) && Ordinary(inp, b)
  {
    if Ordinary(inp, a + b) {
      assert forall e :: e in a ==> e in a + b;
      assert forall e :: e in b ==> e in a + b;
    }
  }

  lemma {:induction false} UnknownOrdinary(inp: Inputs, unknown: seq<ClassifiedDocument>)
    ensures Ordinary(inp, UnknownEvents(inp, unknown))
  {
    if unknown != [] {
      UnknownOrdinary(inp, unknown[..|unknown| - 1]);
    }
  }

  lemma {:induction false} FlagsOrdinary(inp: Inputs, node: NodeName, flags: seq<RuleFlag>)
    ensures Ordinary(inp, FlagEvents(inp, node, flags))
  {
    if flags != [] {
      FlagsOrdinary(inp, node, flags[..|flags| - 1]);
    }
  }

  lemma {:induction false} EvaluationOrdinary(w: World, inp: Inputs, es: seq<ExtractionResult>, n: nat)
    requires n <= |es|
    ensures Ordinary(inp, EvaluateUpTo(w, inp, es, n).events)
  {
    if n > 0 {
      EvaluationOrdinary(w, inp, es, n - 1);
    }
  }

  lemma {:induction false} ScreenOrdinary(w: World, inp: Inputs, s: Screening, names: seq<string>, n: nat)
    requires n <= |names|
    ensures Ordinary(inp, ScreenUpTo(w, inp, s, names, n).events)
  {
    if n > 0 {
      ScreenOrdinary(w, inp, s, names, n - 1);
    }
  }

  lemma ReportOrdinary(inp: Inputs, node: NodeName, flags: seq<RuleFlag>)
    ensures Ordinary(inp, ReportEvents(inp, node, flags))
  {
    FlagsOrdinary(inp, node, flags);
  }

  lemma ValidatorOrdinary(w: World, inp: Inputs, es: seq<ExtractionResult>)
    ensures Ordinary(inp, Validator(w, inp, es).events)
  {
    ValidatorNext(w, inp, es);
    EvaluationOrdinary(w, inp, es, |es|);
    ReportOrdinary(inp, ValidatorNode, AllFlags(w, inp, es));
  }

  lemma ScreeningsOrdinary(w: World, inp: Inputs, n: Names)
    ensures Ordinary(inp, ScreeningEvents(ScreenAll(w, inp, n)))
  {
    ScreenOrdinary(w, inp, SanctionsMain, n.persons + n.companies, |n.persons + n.companies|);
    ScreenOrdinary(w, inp, PepMain, n.persons, |n.persons|);
    ScreenOrdinary(w, inp, SanctionsOwners, n.owners, |n.owners|);
    ScreenOrdinary(w, inp, PepOwners, n.owners, |n.owners|);
  }

  lemma ScorerOrdinary(w: World, inp: Inputs, v: Option<ValidationReport>, es: seq<ExtractionResult>)
    ensures Ordinary(inp, RiskScorer(w, inp, v, es).events)
  {
    var n := ScreeningNames(inp, es);
    ScreeningsOrdinary(w, inp, n);
    ReportOrdinary(inp, RiskNode, Assess(w, inp, EvidenceOf(inp, v, ScreenAll(w, inp, n))).triggers);
  }

  /** The steps that close a case. */
  predicate Closes(pc: Pc) {
    pc.AtAutoDecision? || pc.AtHumanReview? || pc.AtFinalize?
  }

  lemma OrchestratorOrdinary(inp: Inputs, classified: seq<ClassifiedDocument>)
    ensures Ordinary(inp, Orchestrator(inp, classified).events)
  {
    UnknownOrdinary(inp, Unknown(classified));
  }

  lemma RouterAndWorkersOrdinary(w: World, inp: Inputs, known: seq<ClassifiedDocument>, pending: set<nat>, i: nat)
    ensures Ordinary(inp, Router(w, inp).events)
    ensures i < |known| ==> Ordinary(inp, Worker(w, inp, known, pending, i).events)
  {
  }

  lemma PlainOrdinary(inp: Inputs, st: State)
    ensures Ordinary(inp, Intake(inp).events)
    ensures Ordinary(inp, HandleError(inp, st).events)
  {
  }

  lemma GateOrdinary(inp: Inputs, d: Decision)
    ensures Ordinary(inp, GateEffect(inp, d).events)
  {
  }

  lemma OrdinaryStep(w: World, inp: Inputs, c: Config, ch: Choice)
    requires Enabled(c, ch) && !Closes(c.pc)
    ensures Ordinary(inp, EffectOf(w, inp, c, ch).events)
  {
    if c.pc.AtOrchestrator? {
      OrchestratorOrdinary(inp, c.st.classified);
    } else if c.pc.AtValidator? {
      ValidatorOrdinary(w, inp, c.st.extractions);
    } else if c.pc.AtRiskScorer? {
      ScorerOrdinary(w, inp, c.st.validation, c.st.extractions);
    } else if c.pc.Extracting? {
      RouterAndWorkersOrdinary(w, inp, Known(c.st.classified), c.pc.pending, ch.task);
    } else {
      RouterAndWorkersOrdinary(w, inp, [], {}, 0);
      PlainOrdinary(inp, c.st);
      GateOrdinary(inp, GateDecision(c.st));
    }
  }

  /** The event that records a decision: `human_decision` if it is a reviewer's. */
  function ClosingEvent(inp: Inputs, d: Decision): AuditEvent {
    if d.decidedBy == Human then Event(inp, HumanReviewNode, HumanDecided, ForDecision(d))
    else Event(inp, AutoDecisionNode, DecisionMade, ForDecision(d))
  }

  function CompletedEvent(inp: Inputs, d: Decision): AuditEvent {
    Event(inp, FinalizeNode, CaseCompleted, ForDecision(d))
  }

  /** Ordinary events, and then the ones that close the case, so far as it is closed. */
  ghost predicate TrailOf(inp: Inputs, pc: Pc, decision: Option<Decision>, events: seq<AuditEvent>) {
    if pc.AtFinalize? || pc.Done? then
      decision.Some?
      && exists front :: Ordinary(inp, front) && events == front + Ending(inp, pc, decision.value)
    else Ordinary(inp, events)
  }

  function Ending(inp: Inputs, pc: Pc, d: Decision): seq<AuditEvent> {
    [ClosingEvent(inp, d)] + if pc.Done? then [CompletedEvent(inp, d)] else []
  }

  lemma SystemDecides(st: State)
    ensures GateDecision(st).decidedBy == System
  {
  }

  lemma AutoDecided(w: World, inp: Inputs, c: Config)
    requires Inv(w, inp, c) && c.pc.AtAutoDecision?
    ensures c.st.decision.Some? && c.st.decision.value.decidedBy == System
  {
    GateDoneState(w, inp, c, false);
    SystemDecides(AtTheGate(w, inp, c.finished));
  }

  lemma AutoTrail(w: World, inp: Inputs, c: Config)
    requires c.pc.AtAutoDecision? && Ordinary(inp, c.events)
    requires c.st.decision.Some? && c.st.decision.value.decidedBy == System
    ensures var c' := Next(w, inp, c, Advance); TrailOf(inp, c'.pc, c'.st.decision, c'.events)
  {
    var c' := Next(w, inp, c, Advance);
    assert c'.events == c.events + Ending(inp, c'.pc, c'.st.decision.value);
  }

  lemma ReviewTrail(w: World, inp: Inputs, c: Config, ch: Choice)
    requires Enabled(c, ch) && c.pc.AtHumanReview? && Ordinary(inp, c.events)
    ensures var c' := Next(w, inp, c, ch); TrailOf(inp, c'.pc, c'.st.decision, c'.events)
  {
    var c' := Next(w, inp, c, ch);
    if c'.pc.AtFinalize? {
      assert c'.events == c.events + Ending(inp, c'.pc, c'.st.decision.value);
    } else {
      assert c'.events == c.events;
    }
  }

  lemma FinalizeTrail(w: World, inp: Inputs, c: Config)
    requires c.pc.AtFinalize? && TrailOf(inp, c.pc, c.st.decision, c.events)
    ensures var c' := Next(w, inp, c, Advance); TrailOf(inp, c'.pc, c'.st.decision, c'.events)
  {
    var c' := Next(w, inp, c, Advance);
    var d := c.st.decision.value;
    var front :| Ordinary(inp, front) && c.events == front + Ending(inp, c.pc, d);
    assert c'.events == front + Ending(inp, c'.pc, d);
  }

  lemma OtherTrail(w: World, inp: Inputs, c: Config, ch: Choice)
    requires Enabled(c, ch) && !Closes(c.pc) && Ordinary(inp, c.events)
    ensures var e := EffectOf(w, inp, c, ch);
            Ordinary(inp, c.events + e.events) && !e.next.AtFinalize? && !e.next.Done?
  {
    OrdinaryStep(w, inp, c, ch);
    OrdinaryConcat(inp, c.events, EffectOf(w, inp, c, ch).events);
    Progress.StepsFollowEdges(w, inp, c, ch);
  }

  lemma TrailStep(w: World, inp: Inputs, c: Config, ch: Choice)
    requires Inv(w, inp, c) && Enabled(c, ch) && TrailOf(inp, c.pc, c.st.decision, c.events)
    ensures var c' := Next(w, inp, c, ch); TrailOf(inp, c'.pc, c'.st.decision, c'.events)
  {
    if c.pc.AtAutoDecision? {
      AutoDecided(w, inp, c);
      AutoTrail(w, inp, c);
    } else if c.pc.AtHumanReview? {
      ReviewTrail(w, inp, c, ch);
    } else if c.pc.AtFinalize? {
      FinalizeTrail(w, inp, c);
    } else {
      OtherTrail(w, inp, c, ch);
    }
  }

  /** A finished case has emitted `case_completed` exactly once, as its last event and with
      its final decision; right before it, exactly one event records that decision:
      `human_decision` if a reviewer made it, however often the node was executed again, and
      `decision_made` otherwise. Until then neither is emitted. Every event carries the
      case's id. */
  lemma {:induction false} TrailEnds(w: World, inp: Inputs, choices: seq<Choice>)
    requires Exec(w, inp, choices).Some?
    ensures var c := Exec(w, inp, choices).value; TrailOf(inp, c.pc, c.st.decision, c.events)
  {
    if choices != [] {
      var last := |choices| - 1;
      TrailEnds(w, inp, choices[..last]);
      RunsKeepInv(w, inp, choices[..last]);
      TrailStep(w, inp, Exec(w, inp, choices[..last]).value, choices[last]);
    }
  }

  // --- what is recorded of it ---

  lemma {:induction false} StoredAt(up: nat -> bool, n: nat, events: seq<AuditEvent>, i: nat)
    requires i < |events| && up(n + i)
    ensures events[i] in Stored(up, n, events)
  {
    var last := |events| - 1;
    if i < last {
      StoredAt(up, n, events[..last], i);
    }
  }

  lemma {:induction false} StoredFrom(up: nat -> bool, n: nat, events: seq<AuditEvent>, e: AuditEvent) returns (i: nat)
    requires e in Stored(up, n, events)
    ensures i < |events| && up(n + i) && events[i] == e
  {
    var last := |events| - 1;
    if e in Stored(up, n, events[..last]) {
      i := StoredFrom(up, n, events[..last], e);
    } else {
      i := last;
    }
  }

  /** The events that close the case are at the end of the trail, and nowhere else. */
  lemma ClosingEventsLast(inp: Inputs, d: Decision, front: seq<AuditEvent>, events: seq<AuditEvent>, i: nat)
    requires Ordinary(inp, front) && events == front + Ending(inp, Done, d)
    requires i < |events|
    ensures |events| >= 2
    ensures events[i] == ClosingEvent(inp, d) <==> i == |events| - 2
    ensures events[i] == CompletedEvent(inp, d) <==> i == |events| - 1
  {
    assert i < |front| ==> events[i] == front[i] && front[i] in front;
  }

  /** Which of the events that close a case are in its recorded trail. The one with the
      decision is if and only if its own write succeeds, so the program does not make sure
      that the decision is recorded before the case is finalised; and the same holds of
      `case_completed`. Writes are numbered from `n`. */
  lemma RecordedExactly(w: World, inp: Inputs, choices: seq<Choice>, up: nat -> bool, n: nat)
    requires Exec(w, inp, choices).Some? && Exec(w, inp, choices).value.pc.Done?
    ensures var c := Exec(w, inp, choices).value; c.st.decision.Some? && |c.events| >= 2
    ensures var c := Exec(w, inp, choices).value;
            Recorded(inp, c.st.decision.value, c.events, up, n)
  {
    TrailEnds(w, inp, choices);
    var c := Exec(w, inp, choices).value;
    TrailRecorded(inp, c.st.decision, c.events, up, n);
  }

  ghost predicate Recorded(inp: Inputs, d: Decision, events: seq<AuditEvent>, up: nat -> bool, n: nat)
    requires |events| >= 2
  {
    && (ClosingEvent(inp, d) in Stored(up, n, events) <==> up(n + (|events| - 2)))
    && (CompletedEvent(inp, d) in Stored(up, n, events) <==> up(n + (|events| - 1)))
  }

  lemma TrailRecorded(inp: Inputs, decision: Option<Decision>, events: seq<AuditEvent>, up: nat -> bool, n: nat)
    requires TrailOf(inp, Done, decision, events)
    ensures |events| >= 2 && Recorded(inp, decision.value, events, up, n)
  {
    var d := decision.value;
    var front :| Ordinary(inp, front) && events == front + Ending(inp, Done, d);
    var closing, completed := |events| - 2, |events| - 1;
    ClosingEventsLast(inp, d, front, events, closing);
    ClosingEventsLast(inp, d, front, events, completed);
    if up(n + closing) { StoredAt(up, n, events, closing); }
    if up(n + completed) { StoredAt(up, n, events, completed); }
    if ClosingEvent(inp, d) in Stored(up, n, events) {
      var i := StoredFrom(up, n, events, ClosingEvent(inp, d));
      ClosingEventsLast(inp, d, front, events, i);
    }
    if CompletedEvent(inp, d) in Stored(up, n, events) {
      var i := StoredFrom(up, n, events, CompletedEvent(inp, d));
      ClosingEventsLast(inp, d, front, events, i);
    }
  }
}

/** Mandatory escalation triggers, the risk level, the reason codes, and the decision matrix. */
module RiskRules {
  import opened Schemas

  const CRITICAL_MISMATCH_SOURCES :=
    {NAME_MISMATCH, DOB_MISMATCH, COMPANY_NAME_MISMATCH, REG_NUMBER_MISMATCH, EVALUATOR_DISCREPANCY}

  predicate IsCriticalMismatch(f: RuleFlag) {
    f.rule in CRITICAL_MISMATCH_SOURCES && f.severity == Critical
  }

  /** What the triggers are computed from. */
  datatype Evidence = Evidence(
    customer: CustomerType,
    volume: real,
    confidence: real,
    flags: seq<RuleFlag>,
    sanctionsHits: seq<RegistryHit>,
    pepHits: seq<RegistryHit>,
    ownerHits: seq<RegistryHit>,
    unavailable: seq<Registry>)

  function VolumeLimit(settings: Settings, c: CustomerType): real {
    if c == Individual then settings.highVolumeIndividual else settings.highVolumeBusiness
  }

  function Fire(condition: bool, rule: RuleId): seq<RuleFlag> {
    if condition then [RuleFlag(rule, Critical)] else []
  }

  function Outages(unavailable: seq<Registry>): seq<RuleFlag> {
    if unavailable == [] then [] else Outages(unavailable[..|unavailable| - 1]) + Fire(true, REGISTRY_UNAVAILABLE)
  }

  function HitTriggers(e: Evidence): seq<RuleFlag> {
    Fire(e.sanctionsHits != [], SANCTIONS_HIT)
    + Fire(e.pepHits != [], PEP_MATCH)
    + Fire(e.ownerHits != [], UBO_SANCTIONS_OR_PEP)
  }

  predicate Mismatched(e: Evidence) {
    exists f | f in e.flags :: IsCriticalMismatch(f)
  }

  function DataTriggers(settings: Settings, e: Evidence): seq<RuleFlag> {
    Fire(e.volume > VolumeLimit(settings, e.customer), HIGH_VOLUME)
    + Fire(e.confidence < settings.confidence, LOW_CONFIDENCE)
    + Fire(Mismatched(e), CRITICAL_MISMATCH)
  }

  function Triggers(settings: Settings, e: Evidence): seq<RuleFlag> {
    HitTriggers(e) + DataTriggers(settings, e) + Outages(e.unavailable)
  }

  method EvaluateRiskRules(settings: Settings, e: Evidence) returns (triggered: seq<RuleFlag>)
    ensures triggered == Triggers(settings, e)
  {
    triggered := [];
    if e.sanctionsHits != [] {
      triggered := triggered + [RuleFlag(SANCTIONS_HIT, Critical)];
    }
    if e.pepHits != [] {
      triggered := triggered + [RuleFlag(PEP_MATCH, Critical)];
    }
    if e.ownerHits != [] {
      triggered := triggered + [RuleFlag(UBO_SANCTIONS_OR_PEP, Critical)];
    }
    assert triggered == HitTriggers(e);
    triggered := AppendDataTriggers(settings, e, triggered);
    ghost var before := triggered;
    for i := 0 to |e.unavailable|
      invariant triggered == before + Outages(e.unavailable[..i])
    {
      assert e.unavailable[..i + 1][..i] == e.unavailable[..i];
      triggered := triggered + [RuleFlag(REGISTRY_UNAVAILABLE, Critical)];
    }
    assert e.unavailable[..|e.unavailable|] == e.unavailable;
  }

  method AppendDataTriggers(settings: Settings, e: Evidence, before: seq<RuleFlag>)
    returns (triggered: seq<RuleFlag>)
    ensures triggered == before + DataTriggers(settings, e)
  {
    var own: seq<RuleFlag> := [];
    var limit := VolumeLimit(settings, e.customer);
    if e.volume > limit {
      own := own + [RuleFlag(HIGH_VOLUME, Critical)];
    }
    if e.confidence < settings.confidence {
      own := own + [RuleFlag(LOW_CONFIDENCE, Critical)];
    }
    if Mismatched(e) {
      own := own + [RuleFlag(CRITICAL_MISMATCH, Critical)];
    }
    assert own == DataTriggers(settings, e);
    triggered := before + own;
  }

  /** A critical contradiction between what was declared and what a document says, or between
      an extraction and its document. */
  predicate ContradictsCritically(f: RuleFlag) {
    && f.severity == Critical
    && (f.rule == NAME_MISMATCH || f.rule == DOB_MISMATCH || f.rule == COMPANY_NAME_MISMATCH
        || f.rule == REG_NUMBER_MISMATCH || f.rule == EVALUATOR_DISCREPANCY)
  }

  lemma MismatchExact(f: RuleFlag)
    ensures IsCriticalMismatch(f) <==> ContradictsCritically(f)
  {
  }

  lemma MismatchedExact(settings: Settings, e: Evidence)
    ensures Mismatched(e) <==> Due(settings, e, CRITICAL_MISMATCH)
  {
    forall f
      ensures IsCriticalMismatch(f) <==> ContradictsCritically(f)
    {
      MismatchExact(f);
    }
  }

  /** When a rule is due, written out in the terms of the case. */
  predicate Due(settings: Settings, e: Evidence, rule: RuleId) {
    match rule
    case SANCTIONS_HIT => e.sanctionsHits != []
    case PEP_MATCH => e.pepHits != []
    case UBO_SANCTIONS_OR_PEP => e.ownerHits != []
    case HIGH_VOLUME =>
      || (e.customer == Individual && e.volume > settings.highVolumeIndividual)
      || (e.customer == Business && e.volume > settings.highVolumeBusiness)
    case LOW_CONFIDENCE => e.confidence < settings.confidence
    case CRITICAL_MISMATCH => exists f | f in e.flags :: ContradictsCritically(f)
    case REGISTRY_UNAVAILABLE => e.unavailable != []
    case _ => false
  }

  predicate Triggered(triggers: seq<RuleFlag>, rule: RuleId) {
    exists f | f in triggers :: f.rule == rule
  }

  lemma {:induction false} OutagesFire(unavailable: seq<Registry>)
    ensures Triggered(Outages(unavailable), REGISTRY_UNAVAILABLE) <==> unavailable != []
    ensures forall f :: f in Outages(unavailable) ==> f == RuleFlag(REGISTRY_UNAVAILABLE, Critical)
  {
    if unavailable != [] {
      OutagesFire(unavailable[..|unavailable| - 1]);
      assert RuleFlag(REGISTRY_UNAVAILABLE, Critical) in Outages(unavailable);
    }
  }

  lemma TriggeredConcat(s: seq<RuleFlag>, t: seq<RuleFlag>, rule: RuleId)
    ensures Triggered(s + t, rule) <==> Triggered(s, rule) || Triggered(t, rule)
  {
    if f :| f in s && f.rule == rule { assert f in s + t; }
    if f :| f in t && f.rule == rule { assert f in s + t; }
  }

  lemma FireTriggers(condition: bool, fired: RuleId, rule: RuleId)
    ensures Triggered(Fire(condition, fired), rule) <==> condition && rule == fired
  {
    if condition { assert RuleFlag(fired, Critical) in Fire(condition, fired); }
  }

  lemma ThreeFired(p: bool, a: RuleId, q: bool, b: RuleId, r: bool, c: RuleId, rule: RuleId)
    ensures Triggered(Fire(p, a) + Fire(q, b) + Fire(r, c), rule)
            <==> (p && rule == a) || (q && rule == b) || (r && rule == c)
  {
    TriggeredConcat(Fire(p, a) + Fire(q, b), Fire(r, c), rule);
    TriggeredConcat(Fire(p, a), Fire(q, b), rule);
    FireTriggers(p, a, rule);
    FireTriggers(q, b, rule);
    FireTriggers(r, c, rule);
  }

  lemma HitsTriggered(settings: Settings, e: Evidence, rule: RuleId)
    ensures Triggered(HitTriggers(e), rule) <==>
              (rule == SANCTIONS_HIT || rule == PEP_MATCH || rule == UBO_SANCTIONS_OR_PEP) && Due(settings, e, rule)
  {
    ThreeFired(e.sanctionsHits != [], SANCTIONS_HIT, e.pepHits != [], PEP_MATCH,
               e.ownerHits != [], UBO_SANCTIONS_OR_PEP, rule);
  }

  lemma DataTriggered(settings: Settings, e: Evidence, rule: RuleId)
    ensures Triggered(DataTriggers(settings, e), rule) <==>
              (rule == HIGH_VOLUME || rule == LOW_CONFIDENCE || rule == CRITICAL_MISMATCH) && Due(settings, e, rule)
  {
    ThreeFired(e.volume > VolumeLimit(settings, e.customer), HIGH_VOLUME,
               e.confidence < settings.confidence, LOW_CONFIDENCE,
               Mismatched(e), CRITICAL_MISMATCH, rule);
    MismatchedExact(settings, e);
  }

  lemma OutagesTriggered(settings: Settings, e: Evidence, rule: RuleId)
    ensures Triggered(Outages(e.unavailable), rule) <==> rule == REGISTRY_UNAVAILABLE && Due(settings, e, rule)
  {
    OutagesFire(e.unavailable);
  }

  /** A rule is triggered if and only if it is due; nothing else is ever triggered. */
  lemma TriggersExact(settings: Settings, e: Evidence, rule: RuleId)
    ensures Triggered(Triggers(settings, e), rule) <==> Due(settings, e, rule)
  {
    TriggeredConcat(HitTriggers(e) + DataTriggers(settings, e), Outages(e.unavailable), rule);
    TriggeredConcat(HitTriggers(e), DataTriggers(settings, e), rule);
    HitsTriggered(settings, e, rule);
    DataTriggered(settings, e, rule);
    OutagesTriggered(settings, e, rule);
  }

  lemma {:induction false} OutageCount(unavailable: seq<Registry>)
    ensures |Outages(unavailable)| == |unavailable|
  {
    if unavailable != [] {
      OutageCount(unavailable[..|unavailable| - 1]);
    }
  }

  /** Critical triggers of rules tried from place `from` to before place `to`, in that order. */
  ghost predicate InOrder(t: seq<RuleFlag>, from: nat, to: nat) {
    && (forall i :: 0 <= i < |t| ==> t[i].severity == Critical && from <= Place(t[i].rule) < to)
    && forall i, j :: 0 <= i < j < |t| ==> Place(t[i].rule) <= Place(t[j].rule)
  }

  lemma InOrderConcat(s: seq<RuleFlag>, t: seq<RuleFlag>, from: nat, mid: nat, to: nat)
    requires InOrder(s, from, mid) && InOrder(t, mid, to) && from <= mid <= to
    ensures InOrder(s + t, from, to)
  {
  }

  lemma FireInOrder(condition: bool, rule: RuleId, from: nat)
    requires from == Place(rule)
    ensures InOrder(Fire(condition, rule), from, from + 1) && |Fire(condition, rule)| == One(condition)
  {
  }

  lemma ThreeInOrder(p: bool, a: RuleId, q: bool, b: RuleId, r: bool, c: RuleId, from: nat)
    requires Place(a) == from && Place(b) == from + 1 && Place(c) == from + 2
    ensures InOrder(Fire(p, a) + Fire(q, b) + Fire(r, c), from, from + 3)
    ensures |Fire(p, a) + Fire(q, b) + Fire(r, c)| == One(p) + One(q) + One(r)
  {
    FireInOrder(p, a, from);
    FireInOrder(q, b, from + 1);
    FireInOrder(r, c, from + 2);
    InOrderConcat(Fire(p, a), Fire(q, b), from, from + 1, from + 2);
    InOrderConcat(Fire(p, a) + Fire(q, b), Fire(r, c), from, from + 2, from + 3);
  }

  lemma HitsInOrder(e: Evidence)
    ensures InOrder(HitTriggers(e), 0, 3)
    ensures |HitTriggers(e)| == One(e.sanctionsHits != []) + One(e.pepHits != []) + One(e.ownerHits != [])
  {
    ThreeInOrder(e.sanctionsHits != [], SANCTIONS_HIT, e.pepHits != [], PEP_MATCH, e.ownerHits != [], UBO_SANCTIONS_OR_PEP, 0);
  }

  lemma DataInOrder(settings: Settings, e: Evidence)
    ensures InOrder(DataTriggers(settings, e), 3, 6)
    ensures |DataTriggers(settings, e)| == One(Due(settings, e, HIGH_VOLUME)) + One(Due(settings, e, LOW_CONFIDENCE))
                                           + One(Due(settings, e, CRITICAL_MISMATCH))
  {
    MismatchedExact(settings, e);
    ThreeInOrder(e.volume > VolumeLimit(settings, e.customer), HIGH_VOLUME,
                 e.confidence < settings.confidence, LOW_CONFIDENCE, Mismatched(e), CRITICAL_MISMATCH, 3);
  }

  lemma OutagesInOrder(unavailable: seq<Registry>)
    ensures InOrder(Outages(unavailable), 6, 7) && |Outages(unavailable)| == |unavailable|
  {
    OutagesFire(unavailable);
    OutageCount(unavailable);
    assert forall i :: 0 <= i < |Outages(unavailable)| ==> Outages(unavailable)[i] in Outages(unavailable);
  }

  /** There is one trigger for each rule that is due, save that an outage of two registries
      gives two; all are critical; and they come in a fixed order. */
  lemma TriggersInOrder(settings: Settings, e: Evidence)
    ensures InOrder(Triggers(settings, e), 0, 7)
    ensures |Triggers(settings, e)|
            == One(Due(settings, e, SANCTIONS_HIT)) + One(Due(settings, e, PEP_MATCH))
               + One(Due(settings, e, UBO_SANCTIONS_OR_PEP)) + One(Due(settings, e, HIGH_VOLUME))
               + One(Due(settings, e, LOW_CONFIDENCE)) + One(Due(settings, e, CRITICAL_MISMATCH))
               + |e.unavailable|
  {
    HitsInOrder(e);
    DataInOrder(settings, e);
    OutagesInOrder(e.unavailable);
    InOrderConcat(HitTriggers(e), DataTriggers(settings, e), 0, 3, 6);
    InOrderConcat(HitTriggers(e) + DataTriggers(settings, e), Outages(e.unavailable), 0, 6, 7);
  }

  /** The order in which the rules are tried. */
  function Place(rule: RuleId): nat {
    match rule
    case SANCTIONS_HIT => 0
    case PEP_MATCH => 1
    case UBO_SANCTIONS_OR_PEP => 2
    case HIGH_VOLUME => 3
    case LOW_CONFIDENCE => 4
    case CRITICAL_MISMATCH => 5
    case REGISTRY_UNAVAILABLE => 6
    case _ => 7
  }

  const HIGH_RISK_RULES := {SANCTIONS_HIT, PEP_MATCH, UBO_SANCTIONS_OR_PEP, REGISTRY_UNAVAILABLE}

  function LevelOf(triggers: seq<RuleFlag>): RiskLevel {
    if exists f | f in triggers :: f.rule in HIGH_RISK_RULES then High
    else if triggers != [] then Medium
    else Low
  }

  lemma NothingTriggered(triggers: seq<RuleFlag>)
    ensures triggers == [] <==> forall rule :: !Triggered(triggers, rule)
  {
    if triggers != [] {
      assert triggers[0] in triggers;
      assert Triggered(triggers, triggers[0].rule);
    }
  }

  /** The level depends only on which rules are triggered. */
  lemma LevelByRules(s: seq<RuleFlag>, t: seq<RuleFlag>)
    requires forall rule :: Triggered(s, rule) <==> Triggered(t, rule)
    ensures LevelOf(s) == LevelOf(t) && (s == [] <==> t == [])
  {
    NothingTriggered(s);
    NothingTriggered(t);
    LevelExact(s);
    LevelExact(t);
  }

  /** The level: HIGH if a registry has a hit or does not answer, MEDIUM if only other rules
      fired, LOW if none did. */
  lemma LevelExact(s: seq<RuleFlag>)
    ensures LevelOf(s) == High <==>
              || Triggered(s, SANCTIONS_HIT) || Triggered(s, PEP_MATCH)
              || Triggered(s, UBO_SANCTIONS_OR_PEP) || Triggered(s, REGISTRY_UNAVAILABLE)
    ensures LevelOf(s) == Low <==> s == []
  {
    if f :| f in s && f.rule in HIGH_RISK_RULES {
      assert Triggered(s, f.rule);
    }
  }

  // --- reason codes ---

  /** All rule identifiers in the order of their spelling. */
  const ALPHABETICAL: seq<RuleId> := [
    ADDRESS_MISMATCH, ALL_CHECKS_PASSED, COMPANY_NAME_MISMATCH, CRITICAL_MISMATCH, DEGRADED_TO_MANUAL,
    DOB_MISMATCH, DOCUMENT_EXPIRED, DOC_EXPIRED, EVALUATOR_DISCREPANCY, EXTRACTION_INCOMPLETE,
    HIGH_VOLUME, INCOMPLETE_PACKAGE, LOW_CONFIDENCE, NAME_MISMATCH, PEP_MATCH, REGISTRY_UNAVAILABLE,
    REG_NUMBER_MISMATCH, SANCTIONS_HIT, UBO_SANCTIONS_OR_PEP, UNREADABLE_DOCUMENT]

  function Pick(order: seq<RuleId>, triggers: seq<RuleFlag>): seq<RuleId> {
    if order == [] then []
    else (if Triggered(triggers, order[0]) then [order[0]] else []) + Pick(order[1..], triggers)
  }

  /** `sorted({f.rule_id for f in triggers})`. */
  function SortedCodes(triggers: seq<RuleFlag>): seq<RuleId> {
    Pick(ALPHABETICAL, triggers)
  }

  lemma {:induction false} PickByRules(order: seq<RuleId>, s: seq<RuleFlag>, t: seq<RuleFlag>)
    requires forall rule :: Triggered(s, rule) <==> Triggered(t, rule)
    ensures Pick(order, s) == Pick(order, t)
  {
    if order != [] {
      PickByRules(order[1..], s, t);
    }
  }

  lemma {:induction false} PickExact(order: seq<RuleId>, triggers: seq<RuleFlag>, rule: RuleId)
    ensures rule in Pick(order, triggers) <==> rule in order && Triggered(triggers, rule)
  {
    if order != [] {
      PickExact(order[1..], triggers, rule);
      assert order == [order[0]] + order[1..];
    }
  }

  /** A rule's place in that order. */
  function Rank(rule: RuleId): (i: nat)
    ensures i < |ALPHABETICAL|
  {
    match rule
    case ADDRESS_MISMATCH => 0
    case ALL_CHECKS_PASSED => 1
    case COMPANY_NAME_MISMATCH => 2
    case CRITICAL_MISMATCH => 3
    case DEGRADED_TO_MANUAL => 4
    case DOB_MISMATCH => 5
    case DOCUMENT_EXPIRED => 6
    case DOC_EXPIRED => 7
    case EVALUATOR_DISCREPANCY => 8
    case EXTRACTION_INCOMPLETE => 9
    case HIGH_VOLUME => 10
    case INCOMPLETE_PACKAGE => 11
    case LOW_CONFIDENCE => 12
    case NAME_MISMATCH => 13
    case PEP_MATCH => 14
    case REGISTRY_UNAVAILABLE => 15
    case REG_NUMBER_MISMATCH => 16
    case SANCTIONS_HIT => 17
    case UBO_SANCTIONS_OR_PEP => 18
    case UNREADABLE_DOCUMENT => 19
  }

  lemma RankListed(rule: RuleId)
    ensures ALPHABETICAL[Rank(rule)] == rule
  {
  }

  lemma ListedRank(i: nat)
    requires i < |ALPHABETICAL|
    ensures Rank(ALPHABETICAL[i]) == i
  {
  }

  lemma EveryRuleListed(rule: RuleId)
    ensures rule in ALPHABETICAL
  {
    RankListed(rule);
    assert ALPHABETICAL[Rank(rule)] in ALPHABETICAL;
  }

  ghost predicate Ascending(codes: seq<RuleId>) {
    forall i, j :: 0 <= i < j < |codes| ==> Rank(codes[i]) < Rank(codes[j])
  }

  lemma {:induction false} PickAscending(k: nat, triggers: seq<RuleFlag>)
    requires k <= |ALPHABETICAL|
    ensures Ascending(Pick(ALPHABETICAL[k..], triggers))
    ensures forall rule :: rule in Pick(ALPHABETICAL[k..], triggers) ==> k <= Rank(rule)
    decreases |ALPHABETICAL| - k
  {
    if k < |ALPHABETICAL| {
      ListedRank(k);
      PickAscending(k + 1, triggers);
      var order := ALPHABETICAL[k..];
      assert order[0] == ALPHABETICAL[k] && order[1..] == ALPHABETICAL[k + 1..];
    }
  }

  /** The codes come in alphabetical order, each once. */
  lemma SortedCodesAscending(triggers: seq<RuleFlag>)
    ensures Ascending(SortedCodes(triggers))
  {
    PickAscending(0, triggers);
    assert ALPHABETICAL[0..] == ALPHABETICAL;
  }

  /** The sorted codes are exactly the triggered rules. */
  lemma SortedCodesExact(triggers: seq<RuleFlag>, rule: RuleId)
    ensures rule in SortedCodes(triggers) <==> Triggered(triggers, rule)
  {
    EveryRuleListed(rule);
    PickExact(ALPHABETICAL, triggers, rule);
  }

  // --- the decision matrix ---

  predicate HasExpired(flags: seq<RuleFlag>) {
    exists f | f in flags :: f.rule == DOC_EXPIRED
  }

  function SystemDecision(outcome: Outcome, codes: seq<RuleId>): Decision {
    Decision(outcome, System, codes, None)
  }

  function DecideGate(
    completeness: Option<RuleFlag>, flags: seq<RuleFlag>, triggers: seq<RuleFlag>, degraded: bool): Decision
  {
    if completeness.Some? && !degraded then SystemDecision(Reject, [INCOMPLETE_PACKAGE])
    else if HasExpired(flags) && triggers == [] && !degraded then SystemDecision(Reject, [DOCUMENT_EXPIRED])
    else if triggers != [] || degraded then
      SystemDecision(Escalate, SortedCodes(triggers) + if degraded then [DEGRADED_TO_MANUAL] else [])
    else SystemDecision(Approve, [ALL_CHECKS_PASSED])
  }

  /** One trigger is enough: with a complete package no trigger ever goes with an automatic
      decision, and a degraded case is always escalated. A rejection says why, an approval
      says that all checks passed, and an escalation names every trigger, and the degradation
      last. */
  lemma EscalationRecall(
    completeness: Option<RuleFlag>, flags: seq<RuleFlag>, triggers: seq<RuleFlag>, degraded: bool)
    ensures var d := DecideGate(completeness, flags, triggers, degraded);
            && d.decidedBy == System && d.reviewer.None?
            && (d.outcome == Escalate <==> degraded || (triggers != [] && completeness.None?))
            && (d.outcome == Approve <==>
                  !degraded && triggers == [] && completeness.None? && !HasExpired(flags))
            && (d.outcome == Approve ==> d.codes == [ALL_CHECKS_PASSED])
            && (d.outcome == Reject ==> d.codes == [if completeness.Some? then INCOMPLETE_PACKAGE else DOCUMENT_EXPIRED])
            && (d.outcome == Escalate ==>
                  && (forall rule :: rule != DEGRADED_TO_MANUAL ==> (rule in d.codes <==> Triggered(triggers, rule)))
                  && (degraded ==> |d.codes| > 0 && d.codes[|d.codes| - 1] == DEGRADED_TO_MANUAL))
  {
    var d := DecideGate(completeness, flags, triggers, degraded);
    forall rule | d.outcome == Escalate && rule != DEGRADED_TO_MANUAL
      ensures rule in d.codes <==> Triggered(triggers, rule)
    {
      SortedCodesExact(triggers, rule);
    }
  }
}

/** The narrator decides nothing: whatever it writes, and however often it fails, only the
    text of the rationale and the number of calls differ. */
module Noninterference {
  import opened Schemas
  import opened Resilience
  import opened Channels
  import RiskRules
  import opened Nodes
  import opened Machine

  /** The same world with another narrator. */
  function WithNarrator(w: World, narrator: nat -> Reply<string>): World {
    w.(narrator := narrator)
  }

  const BLANK := Summary([])

  function WithoutRationale(r: Option<RiskAssessment>): Option<RiskAssessment> {
    if r.Some? then Some(r.value.(rationale := BLANK)) else None
  }

  /** Equal but for the rationale. */
  ghost predicate LikeState(s: State, t: State) {
    s.(risk := WithoutRationale(s.risk)) == t.(risk := WithoutRationale(t.risk))
  }

  ghost predicate LikeUpdate(u: Update, v: Update) {
    u.(risk := WithoutRationale(u.risk)) == v.(risk := WithoutRationale(v.risk))
  }

  ghost predicate LikeEffect(e: Effect, f: Effect) {
    && LikeUpdate(e.update, f.update)
    && e.next == f.next && e.events == f.events && e.registryCalls == f.registryCalls
  }

  /** Equal but for the rationale and the calls to services. */
  ghost predicate Like(c: Config, d: Config) {
    && LikeState(c.st, d.st)
    && c.(st := FRESH, serviceCalls := 0) == d.(st := FRESH, serviceCalls := 0)
  }

  lemma ApplyLike(s: State, t: State, u: Update, v: Update)
    requires LikeState(s, t) && LikeUpdate(u, v)
    ensures LikeState(Apply(s, u), Apply(t, v))
  {
    LikeParts(s, t);
    assert u.errors == v.errors && u.extractions == v.extractions
           && u.retryCounts == v.retryCounts && u.degradedReasons == v.degradedReasons;
  }

  lemma LikeParts(s: State, t: State)
    requires LikeState(s, t)
    ensures s.extractions == t.extractions && s.errors == t.errors
    ensures s.retryCounts == t.retryCounts && s.degradedReasons == t.degradedReasons
    ensures s.classified == t.classified && s.completeness == t.completeness
    ensures s.validation == t.validation && s.decision == t.decision && s.status == t.status
    ensures s.risk.Some? <==> t.risk.Some?
    ensures s.risk.Some? ==> s.risk.value.triggers == t.risk.value.triggers
  {
    var a, b := s.(risk := WithoutRationale(s.risk)), t.(risk := WithoutRationale(t.risk));
    assert a.extractions == b.extractions && a.errors == b.errors;
    assert a.retryCounts == b.retryCounts && a.degradedReasons == b.degradedReasons;
    assert a.classified == b.classified && a.completeness == b.completeness;
    assert a.validation == b.validation && a.decision == b.decision && a.status == b.status;
    assert a.risk == b.risk;
  }

  lemma AfterLike(c: Config, d: Config, ch: Choice, e: Effect, f: Effect)
    requires Like(c, d) && LikeEffect(e, f)
    ensures Like(After(c, ch, e), After(d, ch, f))
  {
    ApplyLike(c.st, d.st, e.update, f.update);
    var a, b := c.(st := FRESH, serviceCalls := 0), d.(st := FRESH, serviceCalls := 0);
    assert a.pc == b.pc && a.finished == b.finished && a.events == b.events;
    assert a.supersteps == b.supersteps && a.registryCalls == b.registryCalls;
  }

  lemma {:induction false} EvaluationUnaffected(
    w: World, n: nat -> Reply<string>, inp: Inputs, es: seq<ExtractionResult>, k: nat)
    requires k <= |es|
    ensures EvaluateUpTo(WithNarrator(w, n), inp, es, k) == EvaluateUpTo(w, inp, es, k)
  {
    if k > 0 {
      EvaluationUnaffected(w, n, inp, es, k - 1);
    }
  }

  lemma ValidatorUnaffected(w: World, n: nat -> Reply<string>, inp: Inputs, es: seq<ExtractionResult>)
    ensures Validator(WithNarrator(w, n), inp, es) == Validator(w, inp, es)
  {
    EvaluationUnaffected(w, n, inp, es, |es|);
    assert RuleVerdict(WithNarrator(w, n), inp, es) == RuleVerdict(w, inp, es);
    assert Report(WithNarrator(w, n), inp, es) == Report(w, inp, es);
  }

  lemma {:induction false} ScreenUnaffected(
    w: World, n: nat -> Reply<string>, inp: Inputs, s: Screening, names: seq<string>, k: nat)
    requires k <= |names|
    ensures ScreenUpTo(WithNarrator(w, n), inp, s, names, k) == ScreenUpTo(w, inp, s, names, k)
  {
    if k > 0 {
      ScreenUnaffected(w, n, inp, s, names, k - 1);
    }
  }

  lemma ScreeningsUnaffected(w: World, n: nat -> Reply<string>, inp: Inputs, names: Names)
    ensures ScreenAll(WithNarrator(w, n), inp, names) == ScreenAll(w, inp, names)
  {
    ScreenUnaffected(w, n, inp, SanctionsMain, names.persons + names.companies, |names.persons + names.companies|);
    ScreenUnaffected(w, n, inp, PepMain, names.persons, |names.persons|);
    ScreenUnaffected(w, n, inp, SanctionsOwners, names.owners, |names.owners|);
    ScreenUnaffected(w, n, inp, PepOwners, names.owners, |names.owners|);
  }

  lemma AssessLike(w: World, n: nat -> Reply<string>, inp: Inputs, e: RiskRules.Evidence)
    ensures WithoutRationale(Some(Assess(WithNarrator(w, n), inp, e))) == WithoutRationale(Some(Assess(w, inp, e)))
    ensures Assess(WithNarrator(w, n), inp, e).triggers == Assess(w, inp, e).triggers
  {
  }

  lemma ScoredLike(inp: Inputs, s: Screenings, r: RiskAssessment, q: RiskAssessment, i: nat, j: nat)
    requires WithoutRationale(Some(r)) == WithoutRationale(Some(q)) && r.triggers == q.triggers
    ensures LikeEffect(Scored(inp, s, r, i), Scored(inp, s, q, j))
  {
  }

  lemma ScorerLike(
    w: World, n: nat -> Reply<string>, inp: Inputs, v: Option<ValidationReport>, es: seq<ExtractionResult>)
    ensures LikeEffect(RiskScorer(WithNarrator(w, n), inp, v, es), RiskScorer(w, inp, v, es))
  {
    var names := ScreeningNames(inp, es);
    ScreeningsUnaffected(w, n, inp, names);
    var s := ScreenAll(w, inp, names);
    var e := EvidenceOf(inp, v, s);
    AssessLike(w, n, inp, e);
    ScoredLike(inp, s, Assess(WithNarrator(w, n), inp, e), Assess(w, inp, e),
               Narrating(WithNarrator(w, n), inp).Calls(), Narrating(w, inp).Calls());
  }

  lemma GateLike(s: State, t: State)
    requires LikeState(s, t)
    ensures GateDecision(s) == GateDecision(t)
  {
    LikeParts(s, t);
  }

  lemma EnabledLike(c: Config, d: Config, ch: Choice)
    requires Like(c, d)
    ensures c.pc == d.pc
    ensures Enabled(c, ch) <==> Enabled(d, ch)
  {
    LikeParts(c.st, d.st);
    assert c.(st := FRESH, serviceCalls := 0).pc == d.(st := FRESH, serviceCalls := 0).pc;
  }

  lemma ClosingEffects(inp: Inputs, s: State, t: State, resumes: seq<ResumeValue>)
    requires LikeState(s, t)
    ensures AutoDecision(inp, s) == AutoDecision(inp, t)
    ensures Finalize(inp, s) == Finalize(inp, t)
    ensures HandleError(inp, s) == HandleError(inp, t)
    ensures HumanReview(inp, s, resumes) == HumanReview(inp, t, resumes)
  {
    LikeParts(s, t);
  }

  lemma EarlyEffects(w: World, n: nat -> Reply<string>, inp: Inputs, c: Config, d: Config, ch: Choice)
    requires Like(c, d) && c.pc == d.pc && Enabled(c, ch) && Enabled(d, ch)
    requires c.pc.AtIntake? || c.pc.AtRouter? || c.pc.AtOrchestrator? || c.pc.Extracting?
    ensures EffectOf(WithNarrator(w, n), inp, d, ch) == EffectOf(w, inp, c, ch)
  {
    LikeParts(c.st, d.st);
  }

  lemma LateEffects(w: World, n: nat -> Reply<string>, inp: Inputs, c: Config, d: Config, ch: Choice)
    requires Like(c, d) && c.pc == d.pc && Enabled(c, ch) && Enabled(d, ch)
    requires c.pc.AtHandleError? || c.pc.AtGate? || c.pc.AtAutoDecision? || c.pc.AtHumanReview? || c.pc.AtFinalize?
    ensures EffectOf(WithNarrator(w, n), inp, d, ch) == EffectOf(w, inp, c, ch)
  {
    if c.pc.AtGate? {
      GateLike(c.st, d.st);
    } else {
      ClosingEffects(inp, c.st, d.st, if ch.Review? && c.pc.AtHumanReview? then c.pc.resumes + [ch.value] else []);
    }
  }

  lemma EffectLike(w: World, n: nat -> Reply<string>, inp: Inputs, c: Config, d: Config, ch: Choice)
    requires Like(c, d) && c.pc == d.pc && Enabled(c, ch) && Enabled(d, ch)
    ensures LikeEffect(EffectOf(w, inp, c, ch), EffectOf(WithNarrator(w, n), inp, d, ch))
  {
    if c.pc.AtRiskScorer? {
      LikeParts(c.st, d.st);
      ScorerLike(w, n, inp, c.st.validation, c.st.extractions);
    } else if c.pc.AtValidator? {
      LikeParts(c.st, d.st);
      ValidatorUnaffected(w, n, inp, c.st.extractions);
    } else if c.pc.AtIntake? || c.pc.AtRouter? || c.pc.AtOrchestrator? || c.pc.Extracting? {
      EarlyEffects(w, n, inp, c, d, ch);
    } else {
      LateEffects(w, n, inp, c, d, ch);
    }
  }

  /** With any two narrators the same choices lead to the same place: status, decision, risk
      level, triggers, flags, reasons, errors and the emitted events are equal, and only the
      rationale and the number of service calls may differ. */
  lemma {:induction false} NarratorDecidesNothing(
    w: World, n: nat -> Reply<string>, inp: Inputs, choices: seq<Choice>)
    ensures Exec(WithNarrator(w, n), inp, choices).Some? <==> Exec(w, inp, choices).Some?
    ensures Exec(w, inp, choices).Some? ==>
              Like(Exec(w, inp, choices).value, Exec(WithNarrator(w, n), inp, choices).value)
  {
    if choices != [] {
      var last := |choices| - 1;
      NarratorDecidesNothing(w, n, inp, choices[..last]);
      if Exec(w, inp, choices[..last]).Some? {
        var c, d := Exec(w, inp, choices[..last]).value, Exec(WithNarrator(w, n), inp, choices[..last]).value;
        EnabledLike(c, d, choices[last]);
        if Enabled(c, choices[last]) {
          EffectLike(w, n, inp, c, d, choices[last]);
          AfterLike(c, d, choices[last], EffectOf(w, inp, c, choices[last]), EffectOf(WithNarrator(w, n), inp, d, choices[last]));
        }
      }
    }
  }
}

/** A run as it is carried out, step by step, with the services called and the events
    emitted on the way. */
module Runner {
  import opened Schemas
  import opened Audit
  import opened Nodes
  import opened NodeMethods
  import opened Machine
  import Trails

  /** The steps that only compute a value and emit at most one event. */
  predicate Plain(pc: Pc) {
    pc.AtIntake? || pc.AtHandleError? || pc.AtGate? || pc.AtAutoDecision? || pc.AtFinalize?
  }

  lemma PlainEmitsOne(w: World, inp: Inputs, c: Config, ch: Choice)
    requires Plain(c.pc) && Enabled(c, ch)
    ensures |EffectOf(w, inp, c, ch).events| <= 1
  {
  }

  method EmitIfAny(events: seq<AuditEvent>, audit: SafeAuditSink)
    requires |events| <= 1
    requires audit.Valid()
    modifies audit.inner
    ensures audit.Valid()
    ensures audit.Emitted() == old(audit.Emitted()) + events
  {
    if events != [] {
      audit.Emit(events[0]);
      assert events == [events[0]];
    }
  }

  method TakeStep(w: World, inp: Inputs, c: Config, ch: Choice, audit: SafeAuditSink) returns (e: Effect)
    requires Enabled(c, ch)
    requires audit.Valid()
    modifies audit.inner
    ensures audit.Valid()
    ensures e == EffectOf(w, inp, c, ch)
    ensures audit.Emitted() == old(audit.Emitted()) + e.events
  {
    match c.pc {
      case AtRouter => e := RunRouter(w, inp, audit);
      case AtOrchestrator => e := RunOrchestrator(inp, c.st.classified, audit);
      case Extracting(pending) => e := RunWorker(w, inp, Known(c.st.classified), pending, ch.task, audit);
      case AtValidator => e := RunValidator(w, inp, c.st.extractions, audit);
      case AtRiskScorer => e := RunRiskScorer(w, inp, c.st.validation, c.st.extractions, audit);
      case AtHumanReview(resumes) => e := RunHumanReview(inp, c.st, resumes + [ch.value], audit);
      case AtIntake | AtHandleError | AtGate | AtAutoDecision | AtFinalize =>
        PlainEmitsOne(w, inp, c, ch);
        e := EffectOf(w, inp, c, ch);
        EmitIfAny(e.events, audit);
    }
  }

  /** The run so far has come to `c`, and the rest of it can be carried out. */
  ghost predicate OnTheWay(w: World, inp: Inputs, choices: seq<Choice>, i: nat, c: Config) {
    i <= |choices| && Exec(w, inp, choices[..i]) == Some(c)
  }

  lemma {:induction false} PrefixesRun(w: World, inp: Inputs, choices: seq<Choice>, k: nat)
    requires k <= |choices| && Exec(w, inp, choices).Some?
    ensures Exec(w, inp, choices[..k]).Some?
    decreases |choices|
  {
    var last := |choices| - 1;
    if k == |choices| {
      assert choices[..k] == choices;
    } else {
      PrefixesRun(w, inp, choices[..last], k);
      assert choices[..last][..k] == choices[..k];
    }
  }

  lemma Onwards(w: World, inp: Inputs, choices: seq<Choice>, i: nat, c: Config)
    requires Exec(w, inp, choices).Some? && OnTheWay(w, inp, choices, i, c) && i < |choices|
    ensures Enabled(c, choices[i])
    ensures OnTheWay(w, inp, choices, i + 1, After(c, choices[i], EffectOf(w, inp, c, choices[i])))
  {
    PrefixesRun(w, inp, choices, i + 1);
    assert choices[..i + 1][..i] == choices[..i];
  }

  method Proceed(
    w: World, inp: Inputs, choices: seq<Choice>, i: nat, c: Config, audit: SafeAuditSink, ghost start: seq<AuditEvent>)
    returns (after: Config)
    requires Exec(w, inp, choices).Some? && OnTheWay(w, inp, choices, i, c) && i < |choices|
    requires audit.Valid() && audit.Emitted() == start + c.events
    modifies audit.inner
    ensures OnTheWay(w, inp, choices, i + 1, after)
    ensures audit.Valid() && audit.Emitted() == start + after.events
  {
    Onwards(w, inp, choices, i, c);
    var e := TakeStep(w, inp, c, choices[i], audit);
    Associative(start, c.events, e.events);
    after := After(c, choices[i], e);
  }

  method CarryOut(w: World, inp: Inputs, choices: seq<Choice>, audit: SafeAuditSink) returns (c: Config)
    requires Exec(w, inp, choices).Some?
    requires audit.Valid()
    modifies audit.inner
    ensures audit.Valid()
    ensures Exec(w, inp, choices) == Some(c)
    ensures audit.Emitted() == old(audit.Emitted()) + c.events
  {
    ghost var start := audit.Emitted();
    c := INITIAL;
    for i := 0 to |choices|
      invariant OnTheWay(w, inp, choices, i, c)
      invariant audit.Valid() && audit.Emitted() == start + c.events
    {
      c := Proceed(w, inp, choices, i, c, audit, start);
    }
    assert choices[..|choices|] == choices;
  }

  lemma StoredSince(up: nat -> bool, start: seq<AuditEvent>, more: seq<AuditEvent>)
    ensures Stored(up, 0, start + more) == Stored(up, 0, start) + Stored(up, |start|, more)
  {
    StoredConcat(up, 0, start, more);
  }

  /** What is recorded of how a case was closed, when its first write is number `n`. */
  ghost predicate DecisionRecorded(inp: Inputs, c: Config, up: nat -> bool, n: nat) {
    c.st.decision.Some? && |c.events| >= 2 && Trails.Recorded(inp, c.st.decision.value, c.events, up, n)
  }

  /** Carries a run out. The result is a function of the world, the inputs and the choices:
      it is the same for every pattern of failing audit writes. What is stored is what the
      run emitted, less the writes that failed: once the case is done, its decision is among
      that if and only if the write before the last succeeded. */
  method Run(w: World, inp: Inputs, choices: seq<Choice>, audit: SafeAuditSink) returns (c: Config)
    requires Exec(w, inp, choices).Some?
    requires audit.Valid()
    modifies audit.inner
    ensures audit.Valid()
    ensures Exec(w, inp, choices) == Some(c)
    ensures audit.inner.events
            == old(audit.inner.events) + Stored(audit.inner.up, |old(audit.Emitted())|, c.events)
    ensures c.pc.Done? ==> DecisionRecorded(inp, c, audit.inner.up, |old(audit.Emitted())|)
  {
    ghost var start := audit.Emitted();
    assert audit.inner.events == Stored(audit.inner.up, 0, start);
    c := CarryOut(w, inp, choices, audit);
    assert audit.inner.events == Stored(audit.inner.up, 0, start + c.events);
    StoredSince(audit.inner.up, start, c.events);
    if c.pc.Done? {
      Trails.RecordedExactly(w, inp, choices, audit.inner.up, |start|);
    }
  }
}

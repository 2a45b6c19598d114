/** Human review over the stored resume values: re-executing the node from its start on
    every resume comes to taking the first valid value. */
module Replay {
  import opened Schemas
  import opened Audit
  import opened Channels
  import opened Nodes
  import opened Machine
  import opened Progress

  ghost predicate AllInvalid(vs: seq<ResumeValue>) {
    forall i :: 0 <= i < |vs| ==> !ValidReview(vs[i])
  }

  /** The node closes the case with the first valid value, whatever comes behind it, and
      without one interrupts again, reporting the errors of the last value. */
  lemma {:induction false} FirstValidExact(vs: seq<ResumeValue>)
    ensures AllInvalid(vs) <==> FirstValid(vs).Interrupted?
    ensures FirstValid(vs).Interrupted? ==>
              FirstValid(vs).resumeError == if vs == [] then None else Some(ValidationErrors(vs[|vs| - 1]))
    ensures forall k :: 0 <= k < |vs| && AllInvalid(vs[..k]) && ValidReview(vs[k]) ==>
              FirstValid(vs) == Closed(ReviewOf(vs[k]))
  {
    if vs != [] {
      var last := |vs| - 1;
      FirstValidExact(vs[..last]);
      assert vs == vs[..last] + [vs[last]];
      forall k | 0 <= k < |vs| && AllInvalid(vs[..k]) && ValidReview(vs[k])
        ensures FirstValid(vs) == Closed(ReviewOf(vs[k]))
      {
        if k < last {
          assert vs[..last][..k] == vs[..k];
        }
      }
    }
  }

  function Reviews(vs: seq<ResumeValue>): seq<Choice> {
    if vs == [] then [] else Reviews(vs[..|vs| - 1]) + [Review(vs[|vs| - 1])]
  }

  /** A valid value: approve or reject, a reviewer, and a comment that is text if there is one. */
  lemma ValidReviewExact(v: ResumeValue)
    ensures ValidReview(v) <==>
              && v.Resume?
              && v.outcome in {Str("approve"), Str("reject")}
              && v.reviewer.Str?
              && !v.comment.OtherJson?
  {
  }

  lemma InvalidStep(inp: Inputs, st: State, vs: seq<ResumeValue>)
    requires AllInvalid(vs)
    ensures HumanReview(inp, st, vs) == Silent(NO_UPDATE, AtHumanReview(vs), [])
  {
    FirstValidExact(vs);
  }

  /** `d` is `c` after the reviews `vs`, still waiting. */
  ghost predicate StillWaits(c: Config, vs: seq<ResumeValue>, d: Config) {
    && d.pc == AtHumanReview(vs)
    && d.st == c.st && d.finished == c.finished && d.events == c.events
    && d.serviceCalls == c.serviceCalls && d.registryCalls == c.registryCalls
  }

  lemma WaitStep(w: World, inp: Inputs, start: Config, c: Config, vs: seq<ResumeValue>, v: ResumeValue)
    requires StillWaits(start, vs, c) && AllInvalid(vs + [v])
    ensures StillWaits(start, vs + [v], Next(w, inp, c, Review(v)))
  {
    InvalidStep(inp, c.st, vs + [v]);
    NoUpdateKeeps(c.st);
  }

  /** Invalid reviews change nothing but the list of resume values: the case goes on
      waiting, and nothing is emitted, however often the node is executed again. */
  lemma {:induction false} InvalidReviewsOnlyWait(w: World, inp: Inputs, choices: seq<Choice>, vs: seq<ResumeValue>)
    requires Exec(w, inp, choices).Some? && Exec(w, inp, choices).value.pc == AtHumanReview([])
    requires AllInvalid(vs)
    ensures Exec(w, inp, choices + Reviews(vs)).Some?
    ensures StillWaits(Exec(w, inp, choices).value, vs, Exec(w, inp, choices + Reviews(vs)).value)
  {
    if vs == [] {
      assert choices + Reviews(vs) == choices;
    } else {
      var front, last := vs[..|vs| - 1], vs[|vs| - 1];
      assert vs == front + [last];
      InvalidReviewsOnlyWait(w, inp, choices, front);
      var before := choices + Reviews(front);
      WaitStep(w, inp, Exec(w, inp, choices).value, Exec(w, inp, before).value, front, last);
      OneMore(w, inp, before, Review(last));
      assert choices + Reviews(vs) == before + [Review(last)];
    }
  }

  lemma ValidStep(inp: Inputs, st: State, vs: seq<ResumeValue>, v: ResumeValue)
    requires AllInvalid(vs) && ValidReview(v)
    ensures HumanReview(inp, st, vs + [v]) == Reviewed(inp, st, vs + [v], Closed(ReviewOf(v)))
  {
    assert (vs + [v])[..|vs|] == vs;
    FirstValidExact(vs + [v]);
  }

  /** The decision a reviewer's valid value makes of the system's. */
  ghost predicate Resolves(system: Decision, v: ResumeValue, d: Decision)
    requires ValidReview(v)
  {
    && d.outcome == (if v.outcome == Str("approve") then Approve else Reject)
    && d.decidedBy == Human
    && d.codes == system.codes
    && d.reviewer == Some(v.reviewer.s)
  }

  /** `d` is what `c` becomes when the review `v` closes it. */
  ghost predicate ClosesWith(inp: Inputs, c: Config, v: ResumeValue, d: Config)
    requires ValidReview(v)
  {
    && d.pc == AtFinalize
    && c.st.decision.Some? && d.st.decision.Some?
    && Resolves(c.st.decision.value, v, d.st.decision.value)
    && d.st == c.st.(decision := d.st.decision)
    && d.events == c.events + [Event(inp, HumanReviewNode, HumanDecided, ForDecision(d.st.decision.value))]
  }

  lemma ClosingStep(w: World, inp: Inputs, c: Config, vs: seq<ResumeValue>, v: ResumeValue)
    requires c.pc == AtHumanReview(vs) && AllInvalid(vs) && ValidReview(v)
    requires c.st.decision.Some?
    ensures ClosesWith(inp, c, v, Next(w, inp, c, Review(v)))
  {
    ValidStep(inp, c.st, vs, v);
    SetDecisionKeeps(c.st, HumanOutcome(ReviewOf(v), c.st));
  }

  lemma DecisionToReview(w: World, inp: Inputs, choices: seq<Choice>)
    requires Exec(w, inp, choices).Some? && Exec(w, inp, choices).value.pc.AtHumanReview?
    ensures Exec(w, inp, choices).value.st.decision.Some?
  {
    RunsKeepInv(w, inp, choices);
    GateDecides(w, inp, Exec(w, inp, choices).value.finished);
  }

  /** After any number of invalid reviews the first valid one closes the case: its outcome
      becomes the decision, by its reviewer and with the system's reason codes, and
      `human_decision` is emitted for the first time. */
  lemma ClosesAtFirstValidReview(w: World, inp: Inputs, choices: seq<Choice>, vs: seq<ResumeValue>, v: ResumeValue)
    requires Exec(w, inp, choices).Some? && Exec(w, inp, choices).value.pc == AtHumanReview([])
    requires AllInvalid(vs) && ValidReview(v)
    ensures Exec(w, inp, choices + Reviews(vs) + [Review(v)]).Some?
    ensures ClosesWith(inp, Exec(w, inp, choices).value, v, Exec(w, inp, choices + Reviews(vs) + [Review(v)]).value)
  {
    DecisionToReview(w, inp, choices);
    InvalidReviewsOnlyWait(w, inp, choices, vs);
    OneMore(w, inp, choices + Reviews(vs), Review(v));
    ClosingStep(w, inp, Exec(w, inp, choices + Reviews(vs)).value, vs, v);
  }

  predicate IsClosed(c: Config) {
    c.st.decision.Some? && (c.pc.AtFinalize? || c.pc.Done?)
  }

  lemma ClosedStep(w: World, inp: Inputs, c: Config, ch: Choice)
    requires IsClosed(c) && Enabled(c, ch)
    ensures c.pc.AtFinalize? && ch == Advance
    ensures Next(w, inp, c, ch).pc.Done? && Next(w, inp, c, ch).st.decision == c.st.decision
  {
  }

  /** A closed case stays closed: whatever is tried from there on, its decision is final, no
      review is taken, and all that may be left to do is to finalise it. */
  lemma {:induction false} ClosedForGood(w: World, inp: Inputs, choices: seq<Choice>, more: seq<Choice>)
    requires Exec(w, inp, choices).Some? && IsClosed(Exec(w, inp, choices).value)
    requires Exec(w, inp, choices + more).Some?
    ensures more == [] || (more == [Advance] && Exec(w, inp, choices).value.pc.AtFinalize?)
    ensures var c, d := Exec(w, inp, choices).value, Exec(w, inp, choices + more).value;
            && d.st.decision == c.st.decision
            && (if more == [] then d == c else d.pc.Done?)
  {
    if more == [] {
      assert choices + more == choices;
    } else {
      var last := |more| - 1;
      assert (choices + more)[..|choices + more| - 1] == choices + more[..last];
      ClosedForGood(w, inp, choices, more[..last]);
      ClosedStep(w, inp, Exec(w, inp, choices + more[..last]).value, more[last]);
      assert choices + [] == choices;
    }
  }
}

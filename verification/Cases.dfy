/** The service in front of the pipeline: it keeps the checkpointed state of every case,
    answers for it, and resumes a case that waits for a reviewer. */
module Cases {
  import opened Schemas
  import opened Channels
  import opened Nodes
  import opened Machine
  import opened Gatekeeping
  import opened Progress
  import Replay

  /** What the status of a case says about where its run is. FAILED is never set. */
  ghost predicate StatusTells(pc: Pc, status: CaseStatus) {
    && (status == Received <==> pc.AtIntake?)
    && (status == Completed <==> pc.Done?)
    && (pc.AtHumanReview? ==> status == AwaitingHumanReview)
    && (status == AwaitingHumanReview ==> pc.AtHumanReview? || pc.AtFinalize? || pc.Crashed?)
    && status != Failed
  }

  lemma StatusAlongEdges(from: Pc, to: Pc, was: CaseStatus, now: Option<CaseStatus>, ch: Choice)
    requires StatusTells(from, was) && Edge(from, to, ch)
    requires now == StatusSet(from, to)
    ensures StatusTells(to, Set(was, now))
  {
  }

  /** The status a step leaves behind, if it sets one. */
  function StatusSet(from: Pc, to: Pc): Option<CaseStatus> {
    if from.AtIntake? || from.AtHandleError? then Some(Processing)
    else if from.AtGate? && to.AtHumanReview? then Some(AwaitingHumanReview)
    else if from.AtFinalize? && to.Done? then Some(Completed)
    else None
  }

  predicate SetsStatus(from: Pc, e: Effect) {
    e.update.status == StatusSet(from, e.next)
  }

  lemma GateStatus(inp: Inputs, d: Decision)
    ensures SetsStatus(AtGate, GateEffect(inp, d))
  {
  }

  lemma GateCommand(inp: Inputs, st: State)
    ensures SetsStatus(AtGate, Gate(inp, st))
  {
    var d := GateDecision(st);
    GateStatus(inp, d);
    assert Gate(inp, st) == GateEffect(inp, d);
  }

  lemma ValidatorStatus(w: World, inp: Inputs, es: seq<ExtractionResult>)
    ensures SetsStatus(AtValidator, Validator(w, inp, es))
  {
  }

  lemma OtherStatus(w: World, inp: Inputs, c: Config, ch: Choice)
    requires Enabled(c, ch) && !c.pc.AtGate? && !c.pc.AtValidator?
    ensures SetsStatus(c.pc, EffectOf(w, inp, c, ch))
  {
  }

  lemma StatusFromGate(w: World, inp: Inputs, c: Config)
    requires c.pc == AtGate
    ensures SetsStatus(c.pc, EffectOf(w, inp, c, Advance))
  {
    GateCommand(inp, c.st);
  }

  lemma StatusFromValidator(w: World, inp: Inputs, c: Config)
    requires c.pc == AtValidator
    ensures SetsStatus(c.pc, EffectOf(w, inp, c, Advance))
  {
    ValidatorStatus(w, inp, c.st.extractions);
  }

  lemma StatusUpdates(w: World, inp: Inputs, c: Config, ch: Choice)
    requires Enabled(c, ch)
    ensures SetsStatus(c.pc, EffectOf(w, inp, c, ch))
  {
    if c.pc.AtGate? {
      StatusFromGate(w, inp, c);
    } else if c.pc.AtValidator? {
      StatusFromValidator(w, inp, c);
    } else {
      OtherStatus(w, inp, c, ch);
    }
  }

  lemma {:induction false} StatusOfRuns(w: World, inp: Inputs, choices: seq<Choice>)
    requires Exec(w, inp, choices).Some?
    ensures var c := Exec(w, inp, choices).value; StatusTells(c.pc, c.st.status)
  {
    if choices != [] {
      var last := |choices| - 1;
      var c := Exec(w, inp, choices[..last]).value;
      var e := EffectOf(w, inp, c, choices[last]);
      StatusOfRuns(w, inp, choices[..last]);
      StepsFollowEdges(w, inp, c, choices[last]);
      StatusUpdates(w, inp, c, choices[last]);
      StatusAlongEdges(c.pc, e.next, c.st.status, e.update.status, choices[last]);
      assert Exec(w, inp, choices) == Some(After(c, choices[last], e));
    }
  }

  // --- the service ---

  datatype Recommendation = RecommendReject | ManualVerification

  /** What a reviewer is shown. */
  datatype ReviewRequest = ReviewRequest(
    codes: seq<RuleId>, recommendation: Recommendation, degradedReasons: seq<DegradedReason>, resumeError: Option<nat>)

  datatype StatusResponse = StatusResponse(
    status: CaseStatus,
    decision: Option<Decision>,
    level: Option<RiskLevel>,
    confidence: Option<real>,
    degraded: bool,
    degradedReasons: seq<DegradedReason>,
    request: Option<ReviewRequest>)

  datatype ServiceError = CaseNotFound | CaseNotAwaitingReview

  datatype Result<T> = Ok(value: T) | Err(error: ServiceError)

  function ReviewPayload(st: State, error: Option<nat>): ReviewRequest {
    var codes := if st.decision.Some? then st.decision.value.codes else [];
    ReviewRequest(
      codes,
      if SANCTIONS_HIT in codes || PEP_MATCH in codes || UBO_SANCTIONS_OR_PEP in codes
      then RecommendReject else ManualVerification,
      st.degradedReasons, error)
  }

  function ErrorOf(r: Replayed): Option<nat> {
    if r.Interrupted? then r.resumeError else None
  }

  function ResponseFor(c: Config): StatusResponse {
    StatusResponse(
      c.st.status,
      c.st.decision,
      if c.st.risk.Some? then Some(c.st.risk.value.level) else None,
      if c.st.validation.Some? then Some(c.st.validation.value.confidence) else None,
      Degraded(c.st),
      c.st.degradedReasons,
      if c.pc.AtHumanReview? then Some(ReviewPayload(c.st, ErrorOf(FirstValid(c.pc.resumes)))) else None)
  }

  const QUEUED := StatusResponse(Received, None, None, None, false, [], None)

  ghost predicate Reachable(w: World, inp: Inputs, c: Config) {
    exists choices :: Exec(w, inp, choices) == Some(c)
  }

  lemma ReachableStep(w: World, inp: Inputs, c: Config, ch: Choice)
    requires Reachable(w, inp, c) && Enabled(c, ch)
    ensures Reachable(w, inp, Next(w, inp, c, ch))
  {
    var choices :| Exec(w, inp, choices) == Some(c);
    OneMore(w, inp, choices, ch);
    assert Exec(w, inp, choices + [ch]) == Some(Next(w, inp, c, ch));
  }

  /** Where these steps lead from `c`; nothing when one was not there to be taken. */
  function Follow(w: World, inp: Inputs, c: Config, steps: seq<Choice>): Option<Config> {
    if steps == [] then Some(c)
    else
      var before := Follow(w, inp, c, steps[..|steps| - 1]);
      var ch := steps[|steps| - 1];
      if before.Some? && Enabled(before.value, ch) then Some(Next(w, inp, before.value, ch)) else None
  }

  lemma {:induction false} FollowReachable(w: World, inp: Inputs, c: Config, steps: seq<Choice>)
    requires Reachable(w, inp, c) && Follow(w, inp, c, steps).Some?
    ensures Reachable(w, inp, Follow(w, inp, c, steps).value)
  {
    if steps != [] {
      var last := |steps| - 1;
      FollowReachable(w, inp, c, steps[..last]);
      ReachableStep(w, inp, Follow(w, inp, c, steps[..last]).value, steps[last]);
    }
  }

  /** The steps of one superstep, after which there is a checkpoint: one step of the graph, or
      all the workers that are running. */
  predicate Superstep(w: World, inp: Inputs, c: Config, steps: seq<Choice>) {
    && steps != []
    && Follow(w, inp, c, steps).Some?
    && if c.pc.Extracting? then steps[|steps| - 1].Finish? && !Follow(w, inp, c, steps).value.pc.Extracting?
       else |steps| == 1 && !steps[0].Review?
  }

  /** A checkpoint never shows an extraction that is half done. */
  ghost predicate NotHalfDone(c: Config) {
    c.pc.Extracting? ==> c.finished == []
  }

  lemma FanOutStartsEmpty(w: World, inp: Inputs, c: Config, ch: Choice)
    requires Inv(w, inp, c) && Enabled(c, ch) && !c.pc.Extracting?
    ensures NotHalfDone(Next(w, inp, c, ch))
  {
    StepsFollowEdges(w, inp, c, ch);
  }

  lemma SuperstepLands(w: World, inp: Inputs, c: Config, steps: seq<Choice>)
    requires Reachable(w, inp, c) && Superstep(w, inp, c, steps)
    ensures Reachable(w, inp, Follow(w, inp, c, steps).value) && NotHalfDone(Follow(w, inp, c, steps).value)
  {
    FollowReachable(w, inp, c, steps);
    if !c.pc.Extracting? {
      assert steps[..0] == [];
      var choices :| Exec(w, inp, choices) == Some(c);
      RunsKeepInv(w, inp, choices);
      FanOutStartsEmpty(w, inp, c, steps[0]);
    }
  }

  /** What a response means. A case is finished if and only if a decision that is not
      ESCALATE stands, its run over; it asks for a review if and only if its run waits for
      one, and then the system's decision is ESCALATE. The other fields report the state. */
  ghost predicate Truthful(c: Config, r: StatusResponse) {
    && (r.status in {Completed, Failed} <==> c.pc.Done?)
    && (r.status == Completed ==> r.decision.Some? && r.decision.value.outcome != Escalate)
    && (r.request.Some? <==> c.pc.AtHumanReview?)
    && (r.request.Some? ==>
          && r.status == AwaitingHumanReview && r.decision.Some? && r.decision.value.outcome == Escalate
          && AsksFor(c, r.decision.value, r.request.value))
    && Reports(c.st, r)
  }

  ghost predicate Reports(st: State, r: StatusResponse) {
    && r.status == st.status && r.decision == st.decision
    && (st.risk.None? ==> r.level.None?) && (st.risk.Some? ==> r.level == Some(st.risk.value.level))
    && (st.validation.None? ==> r.confidence.None?)
    && (st.validation.Some? ==> r.confidence == Some(st.validation.value.confidence))
    && (r.degraded <==> st.degradedReasons != []) && r.degradedReasons == st.degradedReasons
  }

  /** What a reviewer is shown: the codes of the system's decision, a recommendation to reject
      if a registry has a hit, the reasons of a degradation, and the errors of the last review. */
  ghost predicate AsksFor(c: Config, system: Decision, request: ReviewRequest)
    requires c.pc.AtHumanReview?
  {
    && request.codes == system.codes
    && (request.recommendation == RecommendReject <==>
          exists code :: code in system.codes && (code == SANCTIONS_HIT || code == PEP_MATCH || code == UBO_SANCTIONS_OR_PEP))
    && request.degradedReasons == c.st.degradedReasons
    && request.resumeError
       == if c.pc.resumes == [] then None else Some(ValidationErrors(c.pc.resumes[|c.pc.resumes| - 1]))
  }

  lemma WaitingDecision(w: World, inp: Inputs, c: Config)
    requires Inv(w, inp, c) && c.pc.AtHumanReview?
    ensures c.st.decision.Some? && c.st.decision.value.outcome == Escalate
  {
    GateDoneState(w, inp, c, true);
  }

  lemma FinishedDecision(w: World, inp: Inputs, c: Config)
    requires Inv(w, inp, c) && c.pc.Done?
    ensures c.st.decision.Some? && c.st.decision.value.outcome != Escalate
  {
  }

  lemma RequestExact(c: Config)
    requires c.pc.AtHumanReview? && NoneValid(c.pc.resumes) && c.st.decision.Some?
    ensures ResponseFor(c).request.Some? && AsksFor(c, c.st.decision.value, ResponseFor(c).request.value)
  {
    Replay.FirstValidExact(c.pc.resumes);
  }

  lemma ReportedExact(c: Config)
    ensures Reports(c.st, ResponseFor(c)) && (ResponseFor(c).request.Some? <==> c.pc.AtHumanReview?)
  {
  }

  lemma TruthfulWhen(c: Config)
    requires StatusTells(c.pc, c.st.status)
    requires c.pc.AtHumanReview? ==>
               NoneValid(c.pc.resumes) && c.st.decision.Some? && c.st.decision.value.outcome == Escalate
    requires c.pc.Done? ==> c.st.decision.Some? && c.st.decision.value.outcome != Escalate
    ensures Truthful(c, ResponseFor(c))
  {
    ReportedExact(c);
    if c.pc.AtHumanReview? {
      RequestExact(c);
    }
  }

  lemma ResponsesAreTruthful(w: World, inp: Inputs, c: Config)
    requires Reachable(w, inp, c)
    ensures Truthful(c, ResponseFor(c))
  {
    var choices :| Exec(w, inp, choices) == Some(c);
    RunsKeepInv(w, inp, choices);
    StatusOfRuns(w, inp, choices);
    if c.pc.AtHumanReview? {
      WaitingDecision(w, inp, c);
    } else if c.pc.Done? {
      FinishedDecision(w, inp, c);
    }
    TruthfulWhen(c);
  }

  /** The value a review sends: always well formed, as the request was parsed before. */
  function ResumeOf(human: HumanDecision): ResumeValue {
    Resume(Str(if human.approve then "approve" else "reject"), Str(human.reviewer), Str(human.comment))
  }

  lemma ResumeRoundTrip(human: HumanDecision)
    ensures ValidReview(ResumeOf(human)) && ReviewOf(ResumeOf(human)) == human
  {
  }

  /** A waiting case after a review: closed, with the reviewer's decision. */
  function Resumed(w: World, inp: Inputs, c: Config, human: HumanDecision): Config
    requires c.pc.AtHumanReview?
  {
    var d := Next(w, inp, c, Review(ResumeOf(human)));
    if d.pc.AtFinalize? then Next(w, inp, d, Advance) else d
  }

  /** One review closes a waiting case. */
  ghost predicate ClosedBy(human: HumanDecision, was: Config, now: Config) {
    && now.pc.Done? && now.st.status == Completed
    && was.st.decision.Some? && now.st.decision.Some?
    && now.st.decision.value
       == Decision(if human.approve then Approve else Reject, Human, was.st.decision.value.codes, Some(human.reviewer))
    && SameButDecision(was.st, now.st)
  }

  lemma FinalizeStep(w: World, inp: Inputs, c: Config)
    requires c.pc.AtFinalize? && c.st.decision.Some?
    ensures var d := Next(w, inp, c, Advance); d.pc.Done? && d.st == c.st.(status := Completed)
  {
    SetStatusKeeps(c.st, Completed);
  }

  lemma ReviewStep(w: World, inp: Inputs, c: Config, human: HumanDecision)
    requires c.pc.AtHumanReview? && NoneValid(c.pc.resumes) && c.st.decision.Some?
    ensures var d := Next(w, inp, c, Review(ResumeOf(human)));
            d.pc.AtFinalize? && d.st == c.st.(decision := Some(HumanOutcome(human, c.st)))
  {
    var v := ResumeOf(human);
    ResumeRoundTrip(human);
    Replay.FirstValidExact(c.pc.resumes);
    Replay.ValidStep(inp, c.st, c.pc.resumes, v);
    SetDecisionKeeps(c.st, HumanOutcome(human, c.st));
  }

  lemma ReviewFinalizes(w: World, inp: Inputs, c: Config, human: HumanDecision)
    requires c.pc.AtHumanReview? && NoneValid(c.pc.resumes) && c.st.decision.Some?
    ensures ClosedBy(human, c, Resumed(w, inp, c, human))
    ensures Next(w, inp, c, Review(ResumeOf(human))).pc.AtFinalize?
  {
    ReviewStep(w, inp, c, human);
    FinalizeStep(w, inp, Next(w, inp, c, Review(ResumeOf(human))));
  }

  lemma ResumedReachable(w: World, inp: Inputs, c: Config, human: HumanDecision)
    requires Reachable(w, inp, c) && c.pc.AtHumanReview?
    ensures Reachable(w, inp, Resumed(w, inp, c, human))
    ensures ClosedBy(human, c, Resumed(w, inp, c, human))
  {
    var choices :| Exec(w, inp, choices) == Some(c);
    RunsKeepInv(w, inp, choices);
    WaitingDecision(w, inp, c);
    ReviewFinalizes(w, inp, c, human);
    var d := Next(w, inp, c, Review(ResumeOf(human)));
    ReachableStep(w, inp, c, Review(ResumeOf(human)));
    ReachableStep(w, inp, d, Advance);
  }

  class CaseService {
    const worlds: string -> World
    const inputs: string -> Inputs
    var store: map<string, Config>  // checkpoints
    var tasks: set<string>          // runs started by this instance that are still going

    ghost predicate Valid()
      reads this
    {
      forall id :: id in store ==> Reachable(worlds(id), inputs(id), store[id]) && NotHalfDone(store[id])
    }

    constructor (worlds: string -> World, inputs: string -> Inputs)
      ensures this.worlds == worlds && this.inputs == inputs
      ensures store == map[] && tasks == {} && Valid()
    {
      this.worlds, this.inputs := worlds, inputs;
      store, tasks := map[], {};
    }

    method Submit(caseId: string)
      requires Valid() && caseId !in store && caseId !in tasks
      modifies this
      ensures Valid() && tasks == old(tasks) + {caseId} && store == old(store)
    {
      tasks := tasks + {caseId};
    }

    function Checkpointed(caseId: string): Config
      reads this
    {
      if caseId in store then store[caseId] else INITIAL
    }

    /** A background run reaches its next checkpoint; when it stops its task is dropped. */
    method Checkpoint(caseId: string, steps: seq<Choice>)
      requires Valid() && caseId in tasks
      requires Superstep(worlds(caseId), inputs(caseId), Checkpointed(caseId), steps)
      modifies this
      ensures Valid() && caseId in store
      ensures Follow(worlds(caseId), inputs(caseId), old(Checkpointed(caseId)), steps) == Some(store[caseId])
      ensures store == old(store)[caseId := store[caseId]]
      ensures tasks == if Stopped(store[caseId]) then old(tasks) - {caseId} else old(tasks)
    {
      var w, inp, c := worlds(caseId), inputs(caseId), Checkpointed(caseId);
      assert Exec(w, inp, []) == Some(INITIAL);
      SuperstepLands(w, inp, c, steps);
      var next := Follow(w, inp, c, steps).value;
      store := store[caseId := next];
      if Stopped(next) {
        tasks := tasks - {caseId};
      }
    }

    method Status(caseId: string) returns (r: Result<StatusResponse>)
      requires Valid()
      ensures r == Err(CaseNotFound) <==> caseId !in store && caseId !in tasks
      ensures r != Err(CaseNotAwaitingReview)
      ensures caseId in store ==> r == Ok(ResponseFor(store[caseId])) && Truthful(store[caseId], r.value)
      ensures caseId !in store && caseId in tasks ==>
                && r.Ok? && r.value.status == Received && r.value.decision.None? && r.value.level.None?
                && r.value.confidence.None? && !r.value.degraded && r.value.degradedReasons == [] && r.value.request.None?
    {
      if caseId !in store {
        if caseId in tasks {
          return Ok(QUEUED);
        }
        return Err(CaseNotFound);
      }
      ResponsesAreTruthful(worlds(caseId), inputs(caseId), store[caseId]);
      return Ok(ResponseFor(store[caseId]));
    }

    /** Resumes a waiting case with a reviewer's decision and closes it; other cases and,
        on an error, the case itself are left alone. A second review finds it closed. */
    method Review(caseId: string, human: HumanDecision) returns (r: Result<StatusResponse>)
      requires Valid()
      modifies this
      ensures Valid() && tasks == old(tasks)
      ensures r == Err(CaseNotFound) <==> caseId !in old(store)
      ensures r == Err(CaseNotAwaitingReview) <==> caseId in old(store) && !old(store)[caseId].pc.AtHumanReview?
      ensures r.Err? ==> store == old(store)
      ensures r.Ok? ==>
                && caseId in store && store == old(store)[caseId := store[caseId]]
                && ClosedBy(human, old(store)[caseId], store[caseId])
                && r.value == ResponseFor(store[caseId])
                && r.value.status == Completed && r.value.decision == store[caseId].st.decision
    {
      if caseId !in store {
        return Err(CaseNotFound);
      }
      if !store[caseId].pc.AtHumanReview? {
        return Err(CaseNotAwaitingReview);
      }
      ResumedReachable(worlds(caseId), inputs(caseId), store[caseId], human);
      store := store[caseId := Resumed(worlds(caseId), inputs(caseId), store[caseId], human)];
      r := Status(caseId);
    }

    method Exists(caseId: string) returns (found: bool)
      ensures found <==> caseId in store || caseId in tasks
    {
      found := caseId in store || caseId in tasks;
    }

    /** A case is finished when its run is over with a final decision. */
    method IsFinished(caseId: string) returns (r: Result<bool>)
      requires Valid()
      ensures r.Err? <==> caseId !in store && caseId !in tasks
      ensures r.Ok? ==> (r.value <==> caseId in store && store[caseId].pc.Done?)
    {
      var status := Status(caseId);
      if status.Err? {
        return Err(status.error);
      }
      return Ok(status.value.status in {Completed, Failed});
    }
  }
}

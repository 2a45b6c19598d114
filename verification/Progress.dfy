/** Every run gets somewhere: it is never stuck, it finishes or pauses within nine
    supersteps, and it raises in exactly one situation. */
module Progress {
  import opened Schemas
  import opened Channels
  import opened Services
  import opened Nodes
  import opened Machine
  import ValidationRules

  predicate Stopped(c: Config) {
    c.pc.AtHumanReview? || c.pc.Done? || c.pc.Crashed?
  }

  /** Supersteps still to begin. */
  function Rank(pc: Pc): nat {
    match pc
    case AtIntake => 9
    case AtRouter => 8
    case AtOrchestrator => 7
    case Extracting(_) => 6
    case AtValidator => 5
    case AtRiskScorer => 4
    case AtHandleError => 4
    case AtGate => 3
    case AtAutoDecision => 2
    case AtHumanReview(_) => 1
    case AtFinalize => 1
    case Done => 0
    case Crashed => 0
  }

  /** The edges of the graph: those added when it is built, those of the commands a step
      returns, and the ways a step can raise. A set of workers leads to the same set less
      the one that finished. */
  predicate Edge(from: Pc, to: Pc, ch: Choice) {
    match from
    case AtIntake => to.AtRouter?
    case AtRouter => to.AtOrchestrator? || to.AtHandleError?
    case AtOrchestrator => to.Extracting? || to.AtGate?
    case Extracting(pending) =>
      ch.Finish? && (to.AtValidator? || (to == Extracting(pending - {ch.task}) && to.pending != {}))
    case AtValidator => to.AtRiskScorer? || to.AtHandleError? || to.Crashed?
    case AtRiskScorer => to.AtGate?
    case AtHandleError => to.AtGate?
    case AtGate => to.AtAutoDecision? || to.AtHumanReview?
    case AtAutoDecision => to.AtFinalize? || to.Crashed?
    case AtHumanReview(_) => to.AtFinalize? || to.AtHumanReview?
    case AtFinalize => to.Done? || to.Crashed?
    case _ => false
  }

  lemma EdgesOfCommands(w: World, inp: Inputs, classified: seq<ClassifiedDocument>, es: seq<ExtractionResult>)
    ensures Edge(AtRouter, Router(w, inp).next, Advance)
    ensures Edge(AtOrchestrator, Orchestrator(inp, classified).next, Advance)
    ensures Edge(AtValidator, Validator(w, inp, es).next, Advance)
  {
    ValidatorNext(w, inp, es);
  }

  /** Every step follows an edge. */
  lemma StepsFollowEdges(w: World, inp: Inputs, c: Config, ch: Choice)
    requires Enabled(c, ch)
    ensures Edge(c.pc, EffectOf(w, inp, c, ch).next, ch)
  {
    EdgesOfCommands(w, inp, c.st.classified, c.st.extractions);
  }

  lemma EdgeSupersteps(c: Config, to: Pc, ch: Choice)
    requires Edge(c.pc, to, ch) && c.supersteps + Rank(c.pc) <= 9
    ensures SuperstepsAfter(c, to) + Rank(to) <= 9
  {
  }

  /** Every run finishes or pauses within 9 supersteps of an invocation, well below the
      limit of 25. */
  lemma {:induction false} SuperstepBound(w: World, inp: Inputs, choices: seq<Choice>)
    requires Exec(w, inp, choices).Some?
    ensures var c := Exec(w, inp, choices).value; c.supersteps + Rank(c.pc) <= 9
  {
    if choices != [] {
      var last := |choices| - 1;
      var c := Exec(w, inp, choices[..last]).value;
      var e := EffectOf(w, inp, c, choices[last]);
      SuperstepBound(w, inp, choices[..last]);
      StepsFollowEdges(w, inp, c, choices[last]);
      EdgeSupersteps(c, e.next, choices[last]);
      assert Exec(w, inp, choices) == Some(After(c, choices[last], e));
    }
  }

  /** The supersteps begun at each place of a run in which every step of the graph is taken. */
  function Begun(pc: Pc): nat {
    match pc
    case AtIntake => 0
    case AtRouter => 1
    case AtOrchestrator => 2
    case Extracting(_) => 3
    case AtValidator => 4
    case AtRiskScorer => 5
    case AtHandleError => 5
    case AtGate => 6
    case AtAutoDecision => 7
    case AtHumanReview(_) => 8
    case AtFinalize => 8
    case Done => 9
    case Crashed => 5
  }

  lemma BegunAlongEdge(c: Config, to: Pc, ch: Choice)
    requires Edge(c.pc, to, ch) && !c.pc.AtHumanReview? && c.supersteps == Begun(c.pc)
    requires c.pc.AtRouter? ==> to.AtOrchestrator?
    requires c.pc.AtOrchestrator? ==> to.Extracting?
    requires to.Crashed? ==> c.pc.AtValidator?
    ensures SuperstepsAfter(c, to) == Begun(to)
  {
  }

  lemma NoShortcut(w: World, inp: Inputs, c: Config, ch: Choice)
    requires Inv(w, inp, c) && Enabled(c, ch) && Routed(w, inp) && Complete(w, inp)
    ensures var to := EffectOf(w, inp, c, ch).next;
            && (c.pc.AtRouter? ==> to.AtOrchestrator?)
            && (c.pc.AtOrchestrator? ==> to.Extracting?)
  {
    RouterChannels(w, inp);
  }

  /** The bound is met: a run that takes every step begins supersteps one by one, and the
      ninth ends it. */
  lemma {:induction false} SuperstepsExact(w: World, inp: Inputs, choices: seq<Choice>)
    requires Exec(w, inp, choices).Some? && Routed(w, inp) && Complete(w, inp)
    requires forall i :: 0 <= i < |choices| ==> !choices[i].Review?
    requires !Exec(w, inp, choices).value.pc.Crashed?
    ensures var c := Exec(w, inp, choices).value; c.supersteps == Begun(c.pc)
  {
    if choices != [] {
      var last := |choices| - 1;
      var c := Exec(w, inp, choices[..last]).value;
      var e := EffectOf(w, inp, c, choices[last]);
      SuperstepsExact(w, inp, choices[..last]);
      RunsKeepInv(w, inp, choices[..last]);
      StepsFollowEdges(w, inp, c, choices[last]);
      NoShortcut(w, inp, c, choices[last]);
      BegunAlongEdge(c, e.next, choices[last]);
      assert Exec(w, inp, choices) == Some(After(c, choices[last], e));
    }
  }

  /** Steps left before the run stops, when the package gives `n` tasks. */
  function StepsLeft(pc: Pc, n: nat): nat {
    match pc
    case AtIntake => 8 + n
    case AtRouter => 7 + n
    case AtOrchestrator => 6 + n
    case Extracting(pending) => 5 + |pending|
    case AtHumanReview(_) => 0
    case _ => Rank(pc)
  }

  lemma EdgeCounts(from: Pc, to: Pc, ch: Choice, n: nat)
    requires Edge(from, to, ch) && !from.AtHumanReview?
    requires from.AtOrchestrator? && to.Extracting? ==> |to.pending| <= n
    requires from.Extracting? ==> ch.task in from.pending
    ensures StepsLeft(to, n) < StepsLeft(from, n)
  {
  }

  lemma FanOutSize(w: World, inp: Inputs, c: Config)
    requires Inv(w, inp, c) && c.pc.AtOrchestrator?
    ensures var next := EffectOf(w, inp, c, Advance).next;
            next.Extracting? ==> |next.pending| == |Tasks(w, inp)|
  {
    RouterChannels(w, inp);
  }

  lemma StepCounts(w: World, inp: Inputs, c: Config, ch: Choice)
    requires Inv(w, inp, c) && Enabled(c, ch) && !ch.Review?
    ensures StepsLeft(EffectOf(w, inp, c, ch).next, |Tasks(w, inp)|) < StepsLeft(c.pc, |Tasks(w, inp)|)
  {
    StepsFollowEdges(w, inp, c, ch);
    if c.pc.AtOrchestrator? {
      FanOutSize(w, inp, c);
    }
    EdgeCounts(c.pc, EffectOf(w, inp, c, ch).next, ch, |Tasks(w, inp)|);
  }

  ghost predicate Automatic(choices: seq<Choice>) {
    forall i :: 0 <= i < |choices| ==> !choices[i].Review?
  }

  /** Between two reviews a run takes at most 8 + N steps for N known documents, N of them
      the workers': no run goes on forever. */
  lemma {:induction false} AutomaticStepsBounded(w: World, inp: Inputs, choices: seq<Choice>, more: seq<Choice>)
    requires Exec(w, inp, choices).Some? && Exec(w, inp, choices + more).Some? && Automatic(more)
    ensures StepsLeft(Exec(w, inp, choices + more).value.pc, |Tasks(w, inp)|) + |more|
            <= StepsLeft(Exec(w, inp, choices).value.pc, |Tasks(w, inp)|)
            <= 8 + |Tasks(w, inp)|
  {
    RunsKeepInv(w, inp, choices);
    if more == [] {
      assert choices + more == choices;
      StepsLeftAtMost(w, inp, Exec(w, inp, choices).value);
    } else {
      var last := |more| - 1;
      assert (choices + more)[..|choices + more| - 1] == choices + more[..last];
      AutomaticStepsBounded(w, inp, choices, more[..last]);
      RunsKeepInv(w, inp, choices + more[..last]);
      StepCounts(w, inp, Exec(w, inp, choices + more[..last]).value, more[last]);
    }
  }

  lemma StepsLeftAtMost(w: World, inp: Inputs, c: Config)
    requires Inv(w, inp, c)
    ensures StepsLeft(c.pc, |Tasks(w, inp)|) <= 8 + |Tasks(w, inp)|
  {
    if c.pc.Extracting? {
      assert c.pc.pending <= Indices(|Tasks(w, inp)|);
      Subset(c.pc.pending, Indices(|Tasks(w, inp)|));
    }
  }

  lemma {:induction false} Subset<T>(a: set<T>, b: set<T>)
    requires a <= b
    ensures |a| <= |b|
  {
    assert b == a + (b - a);
    assert |a + (b - a)| == |a| + |b - a|;
  }

  /** A run that has not stopped has a step to take, whichever worker goes next. */
  lemma NeverStuck(w: World, inp: Inputs, c: Config)
    requires Inv(w, inp, c) && !Stopped(c)
    ensures if c.pc.Extracting? then c.pc.pending != {} && forall i :: i in c.pc.pending ==> Enabled(c, Finish(i))
            else Enabled(c, Advance)
  {
    if c.pc.Extracting? {
      GatheredChannels(w, inp, c.finished);
    }
  }

  function NextChoice(pc: Pc): Choice
    requires pc.Extracting? ==> pc.pending != {}
  {
    if pc.Extracting? then Finish(Least(pc.pending)) else Advance
  }

  function Least(s: set<nat>): (i: nat)
    requires s != {}
    ensures i in s
  {
    LeastExists(s);
    var i :| i in s && forall j :: j in s ==> i <= j;
    i
  }

  lemma {:induction false} LeastExists(s: set<nat>)
    requires s != {}
    ensures exists i :: i in s && forall j :: j in s ==> i <= j
  {
    var x :| x in s;
    if s - {x} == {} {
      assert s == {x};
    } else {
      LeastExists(s - {x});
      var y :| y in s - {x} && forall j :: j in s - {x} ==> y <= j;
      var m := if x <= y then x else y;
      assert forall j :: j in s ==> j == x || j in s - {x};
      assert m in s && forall j :: j in s ==> m <= j;
    }
  }

  lemma OneMore(w: World, inp: Inputs, choices: seq<Choice>, ch: Choice)
    requires Exec(w, inp, choices).Some? && Enabled(Exec(w, inp, choices).value, ch)
    ensures Exec(w, inp, choices + [ch]) == Some(Next(w, inp, Exec(w, inp, choices).value, ch))
  {
    assert (choices + [ch])[..|choices|] == choices;
  }

  function Left(w: World, inp: Inputs, choices: seq<Choice>): nat
    requires Exec(w, inp, choices).Some?
  {
    StepsLeft(Exec(w, inp, choices).value.pc, |Tasks(w, inp)|)
  }

  lemma GoOn(w: World, inp: Inputs, choices: seq<Choice>) returns (ch: Choice)
    requires Exec(w, inp, choices).Some? && !Stopped(Exec(w, inp, choices).value)
    ensures !ch.Review? && Exec(w, inp, choices + [ch]).Some?
    ensures Left(w, inp, choices + [ch]) < Left(w, inp, choices)
  {
    var c := Exec(w, inp, choices).value;
    RunsKeepInv(w, inp, choices);
    NeverStuck(w, inp, c);
    ch := NextChoice(c.pc);
    StepCounts(w, inp, c, ch);
    OneMore(w, inp, choices, ch);
  }

  /** So every run can be carried on, without reviews, to a point where it stops. */
  lemma {:induction false} RunsComplete(w: World, inp: Inputs, choices: seq<Choice>) returns (all: seq<Choice>)
    requires Exec(w, inp, choices).Some?
    ensures Exec(w, inp, all).Some? && Stopped(Exec(w, inp, all).value)
    ensures choices <= all && forall i :: |choices| <= i < |all| ==> !all[i].Review?
    decreases Left(w, inp, choices)
  {
    if Stopped(Exec(w, inp, choices).value) {
      all := choices;
    } else {
      var ch := GoOn(w, inp, choices);
      all := RunsComplete(w, inp, choices + [ch]);
      assert all[|choices|] == ch;
    }
  }

  // --- fan-out and fan-in ---

  function Elements(order: seq<nat>): set<nat> {
    if order == [] then {} else Elements(order[..|order| - 1]) + {order[|order| - 1]}
  }

  lemma {:induction false} ElementsExact(order: seq<nat>)
    ensures forall i: nat :: i in Elements(order) <==> i in order
  {
    if order != [] {
      ElementsExact(order[..|order| - 1]);
      assert order == order[..|order| - 1] + [order[|order| - 1]];
    }
  }

  lemma {:induction false} DistinctCount(order: seq<nat>)
    requires forall i, j :: 0 <= i < j < |order| ==> order[i] != order[j]
    ensures |Elements(order)| == |order|
  {
    if order != [] {
      DistinctCount(order[..|order| - 1]);
      ElementsExact(order[..|order| - 1]);
    }
  }

  lemma ScheduleLength(order: seq<nat>, n: nat)
    requires Schedule(order, n)
    ensures |order| == n
  {
    DistinctCount(order);
    ElementsExact(order);
    assert Elements(order) == Indices(n);
  }

  lemma {:induction false} ResultsLength(w: World, inp: Inputs, order: seq<nat>)
    ensures |Results(w, inp, order)| == |order|
  {
    if order != [] {
      ResultsLength(w, inp, order[..|order| - 1]);
    }
  }

  lemma {:induction false} ResultsAt(w: World, inp: Inputs, order: seq<nat>, k: nat)
    requires k < |order|
    ensures |Results(w, inp, order)| == |order|
    ensures Results(w, inp, order)[k] == TaskResult(w, inp, order[k])
  {
    var front, last := order[..|order| - 1], order[|order| - 1];
    ResultsLength(w, inp, order);
    ResultsLength(w, inp, front);
    if k < |front| {
      ResultsAt(w, inp, front, k);
      assert front[k] == order[k];
    }
    assert Results(w, inp, order) == Results(w, inp, front) + [TaskResult(w, inp, last)];
  }

  /** When the validator starts, every known document has exactly one extraction: position
      k holds the result of task `finished[k]`, and every task finished once. */
  lemma OneExtractionEach(w: World, inp: Inputs, choices: seq<Choice>)
    requires Exec(w, inp, choices).Some? && Exec(w, inp, choices).value.pc.AtValidator?
    ensures var c := Exec(w, inp, choices).value;
            && |c.finished| == |c.st.extractions| == |Known(c.st.classified)| > 0
            && (forall i: nat :: i in c.finished <==> i < |Known(c.st.classified)|)
            && (forall k :: 0 <= k < |c.finished| ==>
                  c.st.extractions[k] == TaskResult(w, inp, c.finished[k]))
  {
    RunsKeepInv(w, inp, choices);
    var c := Exec(w, inp, choices).value;
    GatheredChannels(w, inp, c.finished);
    CompleteHasWork(inp, Classified(w, inp));
    ScheduleLength(c.finished, |Tasks(w, inp)|);
    ResultsAt(w, inp, c.finished, 0);
    forall k | 0 <= k < |c.finished|
      ensures c.st.extractions[k] == TaskResult(w, inp, c.finished[k])
    {
      ResultsAt(w, inp, c.finished, k);
    }
  }

  lemma {:induction false} KnownFrom(classified: seq<ClassifiedDocument>, c: ClassifiedDocument)
    ensures c in Known(classified) <==> c in classified && c.docType != UnknownType
    ensures c in Unknown(classified) <==> c in classified && c.docType == UnknownType
  {
    if classified != [] {
      var last := |classified| - 1;
      KnownFrom(classified[..last], c);
      assert classified == classified[..last] + [classified[last]];
    }
  }

  /** Looking a task's document up by its id never fails. */
  lemma TaskDocumentExists(w: World, inp: Inputs, i: nat)
    requires i < |Tasks(w, inp)|
    ensures var task := Task(w, inp, i);
            && task.docType != UnknownType
            && DocumentById(inp.package.documents, task.id) in inp.package.documents
            && DocumentById(inp.package.documents, task.id).id == task.id
            && TaskResult(w, inp, i).id == task.id
  {
    var task := Task(w, inp, i);
    assert task in Tasks(w, inp);
    KnownFrom(Classified(w, inp), task);
    assert task in Classified(w, inp);
    var k :| 0 <= k < |Classified(w, inp)| && Classified(w, inp)[k] == task;
    ReconcileComplete(inp.package.documents, Routing(w, inp).result.value);
    assert inp.package.documents[k].id == task.id;
    assert inp.package.documents[k] in inp.package.documents;
  }

  // --- every order is possible ---

  const TO_THE_FAN_OUT: seq<Choice> := [Advance, Advance, Advance]

  lemma RunIntake(w: World, inp: Inputs)
    ensures Exec(w, inp, [Advance]).Some? && Exec(w, inp, [Advance]).value.pc.AtRouter?
    ensures Exec(w, inp, [Advance]).value.finished == []
  {
    OneMore(w, inp, [], Advance);
    assert [] + [Advance] == [Advance];
  }

  lemma RunRouter(w: World, inp: Inputs)
    requires Routed(w, inp)
    ensures Exec(w, inp, [Advance, Advance]).Some? && Exec(w, inp, [Advance, Advance]).value.pc.AtOrchestrator?
    ensures Exec(w, inp, [Advance, Advance]).value.finished == []
  {
    RunIntake(w, inp);
    OneMore(w, inp, [Advance], Advance);
    assert [Advance] + [Advance] == [Advance, Advance];
  }

  lemma OrchestratorFansOut(w: World, inp: Inputs, c: Config)
    requires Inv(w, inp, c) && c.pc.AtOrchestrator? && Complete(w, inp)
    ensures EffectOf(w, inp, c, Advance).next.Extracting?
  {
    RouterChannels(w, inp);
  }

  lemma RunFanOut(w: World, inp: Inputs)
    requires Routed(w, inp) && Complete(w, inp)
    ensures Exec(w, inp, TO_THE_FAN_OUT).Some? && Exec(w, inp, TO_THE_FAN_OUT).value.pc.Extracting?
    ensures Exec(w, inp, TO_THE_FAN_OUT).value.finished == []
  {
    RunRouter(w, inp);
    RunsKeepInv(w, inp, [Advance, Advance]);
    OrchestratorFansOut(w, inp, Exec(w, inp, [Advance, Advance]).value);
    OneMore(w, inp, [Advance, Advance], Advance);
    assert [Advance, Advance] + [Advance] == TO_THE_FAN_OUT;
  }

  function Finishes(order: seq<nat>): seq<Choice> {
    if order == [] then [] else Finishes(order[..|order| - 1]) + [Finish(order[|order| - 1])]
  }

  /** The run in which the workers in `order` finish in that order, one after another. */
  function FinishingRun(order: seq<nat>): seq<Choice> {
    TO_THE_FAN_OUT + Finishes(order)
  }

  /** Another worker of a schedule can finish. */
  lemma NextWorker(w: World, inp: Inputs, c: Config, order: seq<nat>, k: nat)
    requires Inv(w, inp, c) && c.pc.Extracting?
    requires Schedule(order, |Tasks(w, inp)|) && k < |order| && c.finished == order[..k]
    ensures Enabled(c, Finish(order[k]))
  {
    assert order[k] in order;
    assert order[k] !in c.finished;
    GatheredChannels(w, inp, c.finished);
  }

  /** Workers are still running exactly while the schedule is not through. */
  lemma FanInWhen(w: World, inp: Inputs, c: Config, order: seq<nat>, k: nat)
    requires Inv(w, inp, c) && (c.pc.Extracting? || c.pc.AtValidator?)
    requires Schedule(order, |Tasks(w, inp)|) && k <= |order| && c.finished == order[..k]
    ensures c.pc.Extracting? <==> k < |order|
  {
    ScheduleLength(order, |Tasks(w, inp)|);
    assert order[..|order|] == order;
    if c.pc.AtValidator? {
      ScheduleLength(c.finished, |Tasks(w, inp)|);
    }
  }

  /** These choices have brought the first `k` workers of a schedule to their end. */
  ghost predicate FinishedSoFar(w: World, inp: Inputs, choices: seq<Choice>, order: seq<nat>, k: nat)
    requires k <= |order|
  {
    && Exec(w, inp, choices).Some?
    && var c := Exec(w, inp, choices).value;
    c.finished == order[..k] && if k < |order| then c.pc.Extracting? else c.pc.AtValidator?
  }

  lemma FinishEffect(w: World, inp: Inputs, c: Config, i: nat)
    requires c.pc.Extracting? && Enabled(c, Finish(i))
    ensures var d := Next(w, inp, c, Finish(i));
            d.finished == c.finished + [i] && (d.pc.Extracting? || d.pc.AtValidator?)
  {
  }

  lemma LandedSoFar(w: World, inp: Inputs, choices: seq<Choice>, order: seq<nat>, k: nat)
    requires Schedule(order, |Tasks(w, inp)|) && k <= |order| && Exec(w, inp, choices).Some?
    requires Exec(w, inp, choices).value.finished == order[..k]
    requires Exec(w, inp, choices).value.pc.Extracting? || Exec(w, inp, choices).value.pc.AtValidator?
    ensures FinishedSoFar(w, inp, choices, order, k)
  {
    RunsKeepInv(w, inp, choices);
    FanInWhen(w, inp, Exec(w, inp, choices).value, order, k);
  }

  lemma FinishOne(w: World, inp: Inputs, choices: seq<Choice>, order: seq<nat>, k: nat)
    requires Schedule(order, |Tasks(w, inp)|) && k < |order| && FinishedSoFar(w, inp, choices, order, k)
    ensures FinishedSoFar(w, inp, choices + [Finish(order[k])], order, k + 1)
  {
    var c := Exec(w, inp, choices).value;
    RunsKeepInv(w, inp, choices);
    NextWorker(w, inp, c, order, k);
    FinishEffect(w, inp, c, order[k]);
    OneMore(w, inp, choices, Finish(order[k]));
    assert order[..k + 1] == order[..k] + [order[k]];
    LandedSoFar(w, inp, choices + [Finish(order[k])], order, k + 1);
  }

  lemma FanOutReached(w: World, inp: Inputs, order: seq<nat>)
    requires Routed(w, inp) && Complete(w, inp) && Schedule(order, |Tasks(w, inp)|)
    ensures FinishedSoFar(w, inp, FinishingRun(order[..0]), order, 0)
  {
    RunFanOut(w, inp);
    assert FinishingRun(order[..0]) == TO_THE_FAN_OUT;
    LandedSoFar(w, inp, TO_THE_FAN_OUT, order, 0);
  }

  lemma FinishingOneMore(order: seq<nat>, k: nat)
    requires k < |order|
    ensures FinishingRun(order[..k + 1]) == FinishingRun(order[..k]) + [Finish(order[k])]
  {
    assert order[..k + 1][..k] == order[..k];
  }

  lemma FinishNext(w: World, inp: Inputs, order: seq<nat>, k: nat)
    requires Schedule(order, |Tasks(w, inp)|) && k < |order|
    requires FinishedSoFar(w, inp, FinishingRun(order[..k]), order, k)
    ensures FinishedSoFar(w, inp, FinishingRun(order[..k + 1]), order, k + 1)
  {
    FinishingOneMore(order, k);
    FinishOne(w, inp, FinishingRun(order[..k]), order, k);
  }

  lemma {:induction false} FinishInOrder(w: World, inp: Inputs, order: seq<nat>, k: nat)
    requires Routed(w, inp) && Complete(w, inp)
    requires Schedule(order, |Tasks(w, inp)|) && k <= |order|
    ensures FinishedSoFar(w, inp, FinishingRun(order[..k]), order, k)
  {
    if k == 0 {
      FanOutReached(w, inp, order);
    } else {
      FinishInOrder(w, inp, order, k - 1);
      FinishNext(w, inp, order, k - 1);
    }
  }

  predicate FannedIn(pc: Pc) {
    !pc.AtIntake? && !pc.AtRouter? && !pc.AtOrchestrator? && !pc.Extracting?
  }

  lemma FannedInStep(w: World, inp: Inputs, c: Config, ch: Choice)
    requires Enabled(c, ch) && FannedIn(c.pc)
    ensures var d := Next(w, inp, c, ch); FannedIn(d.pc) && d.finished == c.finished
  {
    StepsFollowEdges(w, inp, c, ch);
  }

  /** The workers finished in this order, and all have. */
  ghost predicate FinishedIn(w: World, inp: Inputs, choices: seq<Choice>, order: seq<nat>) {
    && Exec(w, inp, choices).Some?
    && FannedIn(Exec(w, inp, choices).value.pc)
    && Exec(w, inp, choices).value.finished == order
  }

  lemma FinishedInStays(w: World, inp: Inputs, choices: seq<Choice>, ch: Choice, order: seq<nat>)
    requires FinishedIn(w, inp, choices, order) && Exec(w, inp, choices + [ch]).Some?
    ensures FinishedIn(w, inp, choices + [ch], order)
  {
    assert (choices + [ch])[..|choices|] == choices;
    FannedInStep(w, inp, Exec(w, inp, choices).value, ch);
  }

  /** After the fan-in the order of the workers is settled. */
  lemma {:induction false} CompleteInOrder(w: World, inp: Inputs, choices: seq<Choice>, order: seq<nat>)
    returns (all: seq<Choice>)
    requires FinishedIn(w, inp, choices, order)
    ensures FinishedIn(w, inp, all, order) && Stopped(Exec(w, inp, all).value)
    ensures choices <= all && forall i :: |choices| <= i < |all| ==> !all[i].Review?
    decreases Left(w, inp, choices)
  {
    if Stopped(Exec(w, inp, choices).value) {
      all := choices;
    } else {
      var ch := GoOn(w, inp, choices);
      FinishedInStays(w, inp, choices, ch, order);
      all := CompleteInOrder(w, inp, choices + [ch], order);
      assert all[|choices|] == ch;
    }
  }

  /** Every order of the workers is the order of some run, which pauses or ends without a
      review. */
  lemma EveryScheduleRuns(w: World, inp: Inputs, order: seq<nat>) returns (choices: seq<Choice>)
    requires Routed(w, inp) && Complete(w, inp) && Schedule(order, |Tasks(w, inp)|)
    ensures Exec(w, inp, choices).Some? && Stopped(Exec(w, inp, choices).value)
    ensures Exec(w, inp, choices).value.finished == order
    ensures FinishingRun(order) <= choices && forall i :: |FinishingRun(order)| <= i < |choices| ==> !choices[i].Review?
  {
    assert order[..|order|] == order;
    FinishInOrder(w, inp, order, |order|);
    choices := CompleteInOrder(w, inp, FinishingRun(order), order);
  }

  // --- the gate and the asserts ---

  /** A missing risk assessment at the gate means an incomplete package or a degraded case. */
  lemma MissingRiskExplained(w: World, inp: Inputs, choices: seq<Choice>)
    requires Exec(w, inp, choices).Some? && Exec(w, inp, choices).value.pc.AtGate?
    ensures var st := Exec(w, inp, choices).value.st;
            st.risk.None? ==> st.completeness.Some? || Degraded(st)
  {
    RunsKeepInv(w, inp, choices);
    var c := Exec(w, inp, choices).value;
    RouterChannels(w, inp);
    if Routed(w, inp) && Complete(w, inp) {
      ValidatedChannels(w, inp, c.finished);
    } else if Routed(w, inp) {
      GatheredChannels(w, inp, []);
    }
  }

  /** A run raises if and only if the package is complete and some extracted expiry date
      cannot be parsed; in particular the asserts of the closing steps never fail. */
  lemma RaisesExactly(w: World, inp: Inputs, choices: seq<Choice>)
    requires Exec(w, inp, choices).Some? && Stopped(Exec(w, inp, choices).value)
    ensures Exec(w, inp, choices).value.pc.Crashed? <==>
              && Routed(w, inp) && Complete(w, inp)
              && exists i: nat :: i < |Tasks(w, inp)| && ValidationRules.Raises(w.lib, TaskResult(w, inp, i))
  {
    RunsKeepInv(w, inp, choices);
    var c := Exec(w, inp, choices).value;
    if Routed(w, inp) && Complete(w, inp) {
      CrashByTask(w, inp, c.finished);
    }
  }

  lemma CrashByTask(w: World, inp: Inputs, order: seq<nat>)
    requires Schedule(order, |Tasks(w, inp)|)
    ensures ValidatorCrashes(w, inp, order)
            <==> exists i: nat :: i < |Tasks(w, inp)| && ValidationRules.Raises(w.lib, TaskResult(w, inp, i))
  {
    var es := Results(w, inp, order);
    ValidatorNext(w, inp, es);
    if ValidationRules.AnyRaises(w.lib, es) {
      var e :| e in es && ValidationRules.Raises(w.lib, e);
      ResultsMembers(w, inp, order, e);
    }
    if i: nat :| i < |Tasks(w, inp)| && ValidationRules.Raises(w.lib, TaskResult(w, inp, i)) {
      ResultsMembers(w, inp, order, TaskResult(w, inp, i));
    }
  }

  lemma {:induction false} ResultFrom(w: World, inp: Inputs, order: seq<nat>, e: ExtractionResult) returns (i: nat)
    requires e in Results(w, inp, order)
    ensures i in order && e == TaskResult(w, inp, i)
  {
    var front, last := order[..|order| - 1], order[|order| - 1];
    if e in Results(w, inp, front) {
      i := ResultFrom(w, inp, front, e);
    } else {
      i := last;
    }
  }

  lemma {:induction false} ResultTo(w: World, inp: Inputs, order: seq<nat>, i: nat)
    requires i in order
    ensures TaskResult(w, inp, i) in Results(w, inp, order)
  {
    var front, last := order[..|order| - 1], order[|order| - 1];
    assert order == front + [last];
    if i != last {
      ResultTo(w, inp, front, i);
    }
  }

  /** The extractions gathered are the results of the tasks that finished. */
  lemma ResultsMembers(w: World, inp: Inputs, order: seq<nat>, e: ExtractionResult)
    ensures e in Results(w, inp, order) <==> exists i :: i in order && e == TaskResult(w, inp, i)
  {
    if e in Results(w, inp, order) {
      var i := ResultFrom(w, inp, order, e);
    }
    if i :| i in order && e == TaskResult(w, inp, i) {
      ResultTo(w, inp, order, i);
    }
  }
}

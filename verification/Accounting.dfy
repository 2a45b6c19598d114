/** The books of a run: retry counts agree with the calls made and the failures recorded. */
module Accounting {
  import opened Schemas
  import opened Resilience
  import opened Channels
  import opened Services
  import opened Nodes
  import opened Machine
  import opened Schedules
  import Progress

  // --- retry counts ---

  /** A step's entries in the list of errors. */
  function Entries(errors: seq<ProcessingError>, node: StepName): nat {
    if errors == [] then 0
    else Entries(errors[..|errors| - 1], node) + if errors[|errors| - 1].node == node then 1 else 0
  }

  lemma {:induction false} EntriesConcat(a: seq<ProcessingError>, b: seq<ProcessingError>, node: StepName)
    ensures Entries(a + b, node) == Entries(a, node) + Entries(b, node)
  {
    if b == [] {
      assert a + b == a;
    } else {
      var last := |b| - 1;
      EntriesConcat(a, b[..last], node);
      assert (a + b)[..|a + b| - 1] == a + b[..last];
    }
  }

  lemma {:induction false} EntriesAllOf(errors: seq<ProcessingError>, own: StepName, node: StepName)
    requires forall e :: e in errors ==> e.node == own
    ensures Entries(errors, node) == if node == own then |errors| else 0
  {
    if errors != [] {
      EntriesAllOf(errors[..|errors| - 1], own, node);
      assert errors[|errors| - 1] in errors;
    }
  }

  /** The failures of a retried step are all its own. */
  lemma RetryEntries<T>(own: StepName, script: nat -> Reply<T>, r: nat, hasFallback: bool, node: StepName)
    ensures Entries(Retry(own, script, r, hasFallback).errors, node)
            == if node == own then |Retry(own, script, r, hasFallback).errors| else 0
  {
    RetryIsFirstSuccess(own, script, r, hasFallback);
    EntriesAllOf(Retry(own, script, r, hasFallback).errors, own, node);
  }

  /** Calls a task made at a step. */
  function TaskCallsAt(w: World, inp: Inputs, node: StepName): nat -> nat {
    i => if WorkerStep(Task(w, inp, i).id) == node then TaskTried(w, inp, i).Calls() else 0
  }

  /** Whether a task succeeded at a step. */
  function TaskWinsAt(w: World, inp: Inputs, node: StepName): nat -> nat {
    i => if WorkerStep(Task(w, inp, i).id) == node && TaskTried(w, inp, i).result.Some? then 1 else 0
  }

  /** Calls made at the router or at a worker, once the router is done and the workers in
      `order` are. */
  function CallsMade(w: World, inp: Inputs, order: seq<nat>, node: StepName): nat {
    if node == RouterStep then Routing(w, inp).Calls() else Sum(order, TaskCallsAt(w, inp, node))
  }

  function Wins(w: World, inp: Inputs, order: seq<nat>, node: StepName): nat {
    if node == RouterStep then if Routed(w, inp) then 1 else 0 else Sum(order, TaskWinsAt(w, inp, node))
  }

  /** The books balance at a step: its count is its failures and its successes. For the
      router and the workers it is the calls they made; screening and narrator keep no books,
      and the validator only when it gives up. */
  ghost predicate Balanced(
    w: World, inp: Inputs, counts: Counts, errors: seq<ProcessingError>, order: seq<nat>, node: StepName)
  {
    && CountOf(counts, node) == Entries(errors, node) + Wins(w, inp, order, node)
    && (node != ValidatorStep ==> CountOf(counts, node) == CallsMade(w, inp, order, node))
  }

  lemma RouterBalanced(w: World, inp: Inputs, node: StepName)
    ensures Balanced(w, inp, AfterRouter(w, inp).retryCounts, AfterRouter(w, inp).errors, [], node)
  {
    RetryEntries(RouterStep, w.router, inp.settings.maxStepRetries, true, node);
    RouterChannels(w, inp);
  }

  lemma WorkerBalanced(
    w: World, inp: Inputs, counts: Counts, errors: seq<ProcessingError>, order: seq<nat>, i: nat, node: StepName)
    requires Balanced(w, inp, counts, errors, order, node)
    ensures var t, own := TaskTried(w, inp, i), WorkerStep(Task(w, inp, i).id);
            Balanced(w, inp, MergeCounts(counts, map[own := t.Calls()]), errors + t.errors, order + [i], node)
  {
    var own := WorkerStep(Task(w, inp, i).id);
    RetryEntries(own, w.extractor(i), inp.settings.maxStepRetries, true, node);
    EntriesConcat(errors, TaskTried(w, inp, i).errors, node);
    assert (order + [i])[..|order|] == order;
  }

  lemma {:induction false} EvaluatorFailures(w: World, inp: Inputs, es: seq<ExtractionResult>, n: nat)
    requires n <= |es| && EvaluateUpTo(w, inp, es, n).failure.Some?
    ensures forall e :: e in EvaluateUpTo(w, inp, es, n).failure.value ==> e.node == ValidatorStep
  {
    if EvaluateUpTo(w, inp, es, n - 1).failure.Some? {
      EvaluatorFailures(w, inp, es, n - 1);
    } else {
      var script := w.evaluator(n - 1, DocumentById(inp.package.documents, es[n - 1].id), es[n - 1]);
      RetryIsFirstSuccess(ValidatorStep, script, inp.settings.maxStepRetries, true);
    }
  }

  lemma ValidatorBalanced(
    w: World, inp: Inputs, counts: Counts, errors: seq<ProcessingError>, order: seq<nat>, es: seq<ExtractionResult>, node: StepName)
    requires Balanced(w, inp, counts, errors, order, node)
    ensures var u := Validator(w, inp, es).update;
            Balanced(w, inp, MergeCounts(counts, u.retryCounts), errors + u.errors, order, node)
  {
    var u := Validator(w, inp, es).update;
    ValidatorNext(w, inp, es);
    EntriesConcat(errors, u.errors, node);
    if Validator(w, inp, es).next.AtHandleError? {
      EvaluatorFailures(w, inp, es, |es|);
      EntriesAllOf(u.errors, ValidatorStep, node);
      NoWorkerIsTheValidator(w, inp, order);
    }
  }

  lemma {:induction false} NoWorkerIsTheValidator(w: World, inp: Inputs, order: seq<nat>)
    ensures Wins(w, inp, order, ValidatorStep) == 0
  {
    if order != [] {
      NoWorkerIsTheValidator(w, inp, order[..|order| - 1]);
    }
  }

  /** The steps that keep no books. */
  predicate Quiet(pc: Pc) {
    pc.AtOrchestrator? || pc.AtRiskScorer? || pc.AtHandleError? || pc.AtGate?
    || pc.AtAutoDecision? || pc.AtHumanReview? || pc.AtFinalize?
  }

  lemma QuietStep(w: World, inp: Inputs, c: Config, ch: Choice)
    requires Enabled(c, ch) && Quiet(c.pc)
    ensures var u := EffectOf(w, inp, c, ch).update; u.errors == [] && u.retryCounts == map[]
    ensures !ch.Finish?
  {
  }

  lemma QuietKeeps(counts: Counts, errors: seq<ProcessingError>)
    ensures MergeCounts(counts, map[]) == counts && errors + [] == errors
  {
    MergeCountsAlgebra(counts, map[], map[]);
  }

  predicate PastRouter(c: Config) {
    !c.pc.AtIntake? && !c.pc.AtRouter?
  }

  ghost predicate BooksBalance(w: World, inp: Inputs, c: Config, node: StepName) {
    PastRouter(c) ==> Balanced(w, inp, c.st.retryCounts, c.st.errors, c.finished, node)
  }

  lemma WorkerStepBalances(w: World, inp: Inputs, c: Config, i: nat, node: StepName)
    requires Inv(w, inp, c) && Enabled(c, Finish(i)) && BooksBalance(w, inp, c, node)
    ensures BooksBalance(w, inp, Next(w, inp, c, Finish(i)), node)
  {
    GatheredChannels(w, inp, c.finished);
    assert Task(w, inp, i) == Known(c.st.classified)[i];
    WorkerBalanced(w, inp, c.st.retryCounts, c.st.errors, c.finished, i, node);
  }

  lemma StepBalances(w: World, inp: Inputs, c: Config, ch: Choice, node: StepName)
    requires Inv(w, inp, c) && Enabled(c, ch) && BooksBalance(w, inp, c, node)
    ensures BooksBalance(w, inp, Next(w, inp, c, ch), node)
  {
    if Quiet(c.pc) {
      QuietStep(w, inp, c, ch);
      QuietKeeps(c.st.retryCounts, c.st.errors);
    } else if c.pc.AtRouter? {
      RouterBalanced(w, inp, node);
    } else if c.pc.AtValidator? {
      ValidatorBalanced(w, inp, c.st.retryCounts, c.st.errors, c.finished, c.st.extractions, node);
    } else if c.pc.Extracting? {
      WorkerStepBalances(w, inp, c, ch.task, node);
    }
  }

  /** At every point of every run past the router, the retry count of every step is its
      entries in the list of errors plus its successes; for the router and the workers it
      is the number of calls made. (The validator keeps no books unless it gives up.) */
  lemma {:induction false} RetryConservation(w: World, inp: Inputs, choices: seq<Choice>, node: StepName)
    requires Exec(w, inp, choices).Some?
    ensures BooksBalance(w, inp, Exec(w, inp, choices).value, node)
  {
    if choices != [] {
      var last := |choices| - 1;
      RetryConservation(w, inp, choices[..last], node);
      RunsKeepInv(w, inp, choices[..last]);
      StepBalances(w, inp, Exec(w, inp, choices[..last]).value, choices[last], node);
    }
  }

  /** Whatever the order the workers finish in, the counts come to the same. */
  lemma CountsAnyOrder(w: World, inp: Inputs, first: seq<Choice>, second: seq<Choice>, node: StepName)
    requires Exec(w, inp, first).Some? && Exec(w, inp, second).Some?
    requires Exec(w, inp, first).value.pc.AtValidator? && Exec(w, inp, second).value.pc.AtValidator?
    requires node != ValidatorStep
    ensures CountOf(Exec(w, inp, first).value.st.retryCounts, node)
            == CountOf(Exec(w, inp, second).value.st.retryCounts, node)
            == if node == RouterStep then Routing(w, inp).Calls()
               else SumTo(|Tasks(w, inp)|, TaskCallsAt(w, inp, node))
  {
    RetryConservation(w, inp, first, node);
    RetryConservation(w, inp, second, node);
    RunsKeepInv(w, inp, first);
    RunsKeepInv(w, inp, second);
    SumOfSchedule(Exec(w, inp, first).value.finished, |Tasks(w, inp)|, TaskCallsAt(w, inp, node));
    SumOfSchedule(Exec(w, inp, second).value.finished, |Tasks(w, inp)|, TaskCallsAt(w, inp, node));
  }

  // --- one task for each document id ---

  ghost predicate UniqueIds(documents: seq<InputDocument>) {
    forall i, j :: 0 <= i < j < |documents| ==> documents[i].id != documents[j].id
  }

  ghost predicate DistinctIds(classified: seq<ClassifiedDocument>) {
    forall i, j :: 0 <= i < j < |classified| ==> classified[i].id != classified[j].id
  }

  lemma {:induction false} KnownDistinct(classified: seq<ClassifiedDocument>)
    requires DistinctIds(classified)
    ensures DistinctIds(Known(classified))
  {
    if classified != [] {
      var last := |classified| - 1;
      KnownDistinct(classified[..last]);
      var front := Known(classified[..last]);
      forall i | 0 <= i < |front|
        ensures front[i].id != classified[last].id
      {
        Progress.KnownFrom(classified[..last], front[i]);
        assert front[i] in front;
      }
    }
  }

  lemma {:induction false} SumOfOne(order: seq<nat>, f: nat -> nat, i: nat)
    requires forall a, b :: 0 <= a < b < |order| ==> order[a] != order[b]
    requires forall k :: k in order && k != i ==> f(k) == 0
    ensures Sum(order, f) == if i in order then f(i) else 0
  {
    if order != [] {
      var last := |order| - 1;
      assert order == order[..last] + [order[last]];
      SumOfOne(order[..last], f, i);
    }
  }

  /** With unique document ids each worker has a retry count of its own: the calls its task
      made, between one and R + 2. */
  lemma OwnRetryCount(w: World, inp: Inputs, choices: seq<Choice>, i: nat)
    requires UniqueIds(inp.package.documents)
    requires Exec(w, inp, choices).Some? && Exec(w, inp, choices).value.pc.AtValidator?
    requires i < |Tasks(w, inp)|
    ensures CountOf(Exec(w, inp, choices).value.st.retryCounts, WorkerStep(Task(w, inp, i).id))
            == TaskTried(w, inp, i).Calls()
    ensures 1 <= TaskTried(w, inp, i).Calls() <= inp.settings.maxStepRetries + 2
  {
    var c := Exec(w, inp, choices).value;
    var node := WorkerStep(Task(w, inp, i).id);
    RunsKeepInv(w, inp, choices);
    RetryConservation(w, inp, choices, node);
    RetryIsFirstSuccess(node, w.extractor(i), inp.settings.maxStepRetries, true);
    TasksDistinct(w, inp);
    forall k | k in c.finished && k != i
      ensures TaskCallsAt(w, inp, node)(k) == 0
    {
      assert Task(w, inp, k).id != Task(w, inp, i).id;
    }
    SumOfOne(c.finished, TaskCallsAt(w, inp, node), i);
  }

  lemma TasksDistinct(w: World, inp: Inputs)
    requires UniqueIds(inp.package.documents)
    ensures DistinctIds(Tasks(w, inp))
  {
    if Routed(w, inp) {
      ReconcileComplete(inp.package.documents, Routing(w, inp).result.value);
    }
    KnownDistinct(Classified(w, inp));
  }
}

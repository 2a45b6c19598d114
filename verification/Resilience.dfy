/** Bounded retry with an optional fallback: 1 + R primary attempts, then one
    attempt on the fallback. */
module Resilience {
  import opened Schemas

  /** What one call to an outside service does: answer, or raise. */
  datatype Reply<+T> = Answer(value: T) | Raised(kind: string, message: string)

  /** The result of a retried step: a value or exhaustion, and the failures seen. */
  datatype Tried<+T> = Tried(result: Option<T>, errors: seq<ProcessingError>) {

    /** Calls made: one per recorded failure, and one more on success. */
    function Calls(): nat {
      |errors| + if result.Some? then 1 else 0
    }
  }

  /** How many calls a step may make. */
  function Budget(maxRetries: nat, hasFallback: bool): nat {
    1 + maxRetries + if hasFallback then 1 else 0
  }

  function Failure<T>(node: StepName, reply: Reply<T>, attempt: nat, primary: nat): ProcessingError
    requires reply.Raised?
  {
    ProcessingError(node, reply.kind,
      if attempt <= primary then reply.message else "fallback failed: " + reply.message, attempt)
  }

  /** The attempts numbered `k..budget`; those after `primary` go to the fallback. */
  function TryFrom<T>(node: StepName, script: nat -> Reply<T>, k: nat, budget: nat, primary: nat): Tried<T>
    decreases budget + 1 - k
  {
    if k > budget then Tried(None, [])
    else if script(k).Answer? then Tried(Some(script(k).value), [])
    else
      var rest := TryFrom(node, script, k + 1, budget, primary);
      Tried(rest.result, [Failure(node, script(k), k, primary)] + rest.errors)
  }

  /** A whole retried step; attempt numbers start at 1. */
  function Retry<T>(node: StepName, script: nat -> Reply<T>, maxRetries: nat, hasFallback: bool): Tried<T> {
    TryFrom(node, script, 1, Budget(maxRetries, hasFallback), 1 + maxRetries)
  }

  /** Attempt `j` is the first one that answers. */
  ghost predicate FirstSuccess<T>(script: nat -> Reply<T>, from: nat, j: nat) {
    && from <= j
    && script(j).Answer?
    && forall i :: from <= i < j ==> script(i).Raised?
  }

  /** Exhaustion: nothing answered, and every attempt left a failure. */
  lemma {:induction false} TryFromExhausted<T>(
    node: StepName, script: nat -> Reply<T>, k: nat, budget: nat, primary: nat)
    ensures var t := TryFrom(node, script, k, budget, primary);
            && (t.result.None? <==> forall i :: k <= i <= budget ==> script(i).Raised?)
            && (t.result.None? && k <= budget + 1 ==> |t.errors| == budget + 1 - k)
    decreases budget + 1 - k
  {
    if k <= budget && script(k).Raised? {
      TryFromExhausted(node, script, k + 1, budget, primary);
    }
  }

  /** Success: the value is that of the first attempt that answers. */
  lemma {:induction false} TryFromSucceeded<T>(
    node: StepName, script: nat -> Reply<T>, k: nat, budget: nat, primary: nat)
    requires TryFrom(node, script, k, budget, primary).result.Some?
    ensures var t := TryFrom(node, script, k, budget, primary);
            var j := k + |t.errors|;
            j <= budget && FirstSuccess(script, k, j) && t.result.value == script(j).value
    decreases budget + 1 - k
  {
    if script(k).Raised? {
      TryFromSucceeded(node, script, k + 1, budget, primary);
    }
  }

  /** The failures are those of the attempts `k, k + 1, ...`, in order: failure `i` is that of
      attempt `n`. */
  lemma {:induction false} TryFromFailures<T>(
    node: StepName, script: nat -> Reply<T>, k: nat, budget: nat, primary: nat, i: nat, n: nat)
    requires n == k + i && i < |TryFrom(node, script, k, budget, primary).errors|
    ensures script(n).Raised?
    ensures TryFrom(node, script, k, budget, primary).errors[i] == Failure(node, script(n), n, primary)
    decreases i
  {
    if i > 0 {
      var rest := TryFrom(node, script, k + 1, budget, primary).errors;
      assert TryFrom(node, script, k, budget, primary).errors == [Failure(node, script(k), k, primary)] + rest;
      TryFromFailures(node, script, k + 1, budget, primary, i - 1, n);
    }
  }

  /** `run_resilient` refines "first success of 1 + R primary calls, then one optional
      fallback": it returns that value with exactly the preceding failures, numbered
      1, 2, 3, ...; it is exhausted if and only if every call fails; and it never makes
      more than R + 2 calls. */
  lemma RetryIsFirstSuccess<T>(node: StepName, script: nat -> Reply<T>, maxRetries: nat, hasFallback: bool)
    ensures var t := Retry(node, script, maxRetries, hasFallback);
            var budget := 1 + maxRetries + if hasFallback then 1 else 0;
            && (forall v :: t.result == Some(v) <==>
                  exists j :: 1 <= j <= budget && FirstSuccess(script, 1, j) && script(j) == Answer(v))
            && (t.result.None? <==> forall i :: 1 <= i <= budget ==> script(i).Raised?)
            && (forall j :: 1 <= j <= budget && FirstSuccess(script, 1, j) ==> |t.errors| == j - 1)
            && 1 <= t.Calls() <= budget <= maxRetries + 2
            && forall i :: 0 <= i < |t.errors| ==>
                 && t.errors[i].node == node
                 && t.errors[i].attempt == i + 1
                 && script(i + 1).Raised?
                 && t.errors[i].kind == script(i + 1).kind
  {
    var budget := Budget(maxRetries, hasFallback);
    var t := Retry(node, script, maxRetries, hasFallback);
    TryFromExhausted(node, script, 1, budget, 1 + maxRetries);
    if t.result.Some? {
      TryFromSucceeded(node, script, 1, budget, 1 + maxRetries);
      assert FirstSuccess(script, 1, 1 + |t.errors|);
    }
    forall i | 0 <= i < |t.errors|
      ensures t.errors[i].node == node && t.errors[i].attempt == i + 1
              && script(i + 1).Raised? && t.errors[i].kind == script(i + 1).kind
    {
      TryFromFailures(node, script, 1, budget, 1 + maxRetries, i, i + 1);
    }
  }

  /** A recorded failure repeats what the call raised; the fallback's says that it is the
      fallback's. */
  lemma FailureExact<T>(node: StepName, script: nat -> Reply<T>, maxRetries: nat, hasFallback: bool, i: nat)
    requires i < |Retry(node, script, maxRetries, hasFallback).errors|
    ensures script(i + 1).Raised?
    ensures Retry(node, script, maxRetries, hasFallback).errors[i]
            == ProcessingError(node, script(i + 1).kind,
                 if i <= maxRetries then script(i + 1).message else "fallback failed: " + script(i + 1).message, i + 1)
  {
    TryFromFailures(node, script, 1, Budget(maxRetries, hasFallback), 1 + maxRetries, i, i + 1);
  }

  /** A callable of the program (`lambda: service.step(...)`): its n-th call, counted from
      `first`, does what the script says. */
  class Endpoint<T> {
    const script: nat -> Reply<T>
    const first: nat
    var calls: nat

    constructor (script: nat -> Reply<T>, first: nat)
      ensures this.script == script && this.first == first && calls == 0
    {
      this.script := script;
      this.first := first;
      calls := 0;
    }

    method Call() returns (r: Reply<T>)
      modifies this
      ensures r == script(first + old(calls))
      ensures calls == old(calls) + 1
    {
      r := script(first + calls);
      calls := calls + 1;
    }
  }

  /** A step that failed `errors` so far and ends as `rest` does. */
  function Ending<T>(errors: seq<ProcessingError>, rest: Tried<T>): Tried<T> {
    Tried(rest.result, errors + rest.errors)
  }

  /** `whole` is what the step comes to if it has failed `errors` so far, before attempt `k`. */
  ghost predicate Pending<T>(
    whole: Tried<T>, errors: seq<ProcessingError>,
    node: StepName, script: nat -> Reply<T>, k: nat, budget: nat, primary: nat)
  {
    whole == Ending(errors, TryFrom(node, script, k, budget, primary))
  }

  lemma PendingStart<T>(node: StepName, script: nat -> Reply<T>, k: nat, budget: nat, primary: nat)
    ensures Pending(TryFrom(node, script, k, budget, primary), [], node, script, k, budget, primary)
  {
  }

  lemma PendingFailure<T>(
    whole: Tried<T>, errors: seq<ProcessingError>,
    node: StepName, script: nat -> Reply<T>, k: nat, budget: nat, primary: nat)
    requires Pending(whole, errors, node, script, k, budget, primary)
    requires k <= budget && script(k).Raised?
    ensures Pending(whole, errors + [Failure(node, script(k), k, primary)], node, script, k + 1, budget, primary)
  {
    var rest := TryFrom(node, script, k + 1, budget, primary).errors;
    var failure := Failure(node, script(k), k, primary);
    assert errors + ([failure] + rest) == (errors + [failure]) + rest;
  }

  lemma PendingStop<T>(
    whole: Tried<T>, errors: seq<ProcessingError>,
    node: StepName, script: nat -> Reply<T>, k: nat, budget: nat, primary: nat)
    requires Pending(whole, errors, node, script, k, budget, primary)
    requires k <= budget ==> script(k).Answer?
    ensures whole == Tried(if k <= budget then Some(script(k).value) else None, errors)
  {
    assert errors + [] == errors;
  }

  /** The last attempt, on the fallback. */
  method TryFallback<T>(
    node: StepName, fallback: Endpoint<T>, maxRetries: nat, errors: seq<ProcessingError>, ghost whole: Tried<T>)
    returns (tried: Tried<T>)
    requires fallback.first + fallback.calls == maxRetries + 2
    requires Pending(whole, errors, node, fallback.script, maxRetries + 2, maxRetries + 2, 1 + maxRetries)
    modifies fallback
    ensures tried == whole
    ensures fallback.calls == old(fallback.calls) + 1
    ensures tried.Calls() == |errors| + 1
  {
    var reply := fallback.Call();
    ghost var script, last := fallback.script, maxRetries + 2;
    if reply.Answer? {
      PendingStop(whole, errors, node, script, last, last, 1 + maxRetries);
      return Tried(Some(reply.value), errors);
    }
    var all := errors + [ProcessingError(node, reply.kind, "fallback failed: " + reply.message, maxRetries + 2)];
    PendingFailure(whole, errors, node, script, last, last, 1 + maxRetries);
    PendingStop(whole, all, node, script, last + 1, last, 1 + maxRetries);
    return Tried(None, all);
  }

  /** The attempts on the primary. */
  method TryPrimary<T>(
    node: StepName, primary: Endpoint<T>, maxRetries: nat, ghost budget: nat, ghost whole: Tried<T>)
    returns (value: Option<T>, errors: seq<ProcessingError>)
    requires primary.first + primary.calls == 1 && budget >= 1 + maxRetries
    requires Pending(whole, [], node, primary.script, 1, budget, 1 + maxRetries)
    modifies primary
    ensures value.Some? ==> whole == Tried(value, errors)
    ensures value.None? ==>
              |errors| == 1 + maxRetries
              && Pending(whole, errors, node, primary.script, maxRetries + 2, budget, 1 + maxRetries)
    ensures primary.calls == old(primary.calls) + Tried(value, errors).Calls()
  {
    errors := [];
    var attempt := 0;
    ghost var script := primary.script;
    while attempt < 1 + maxRetries
      invariant 0 <= attempt <= 1 + maxRetries
      invariant |errors| == attempt
      invariant primary.calls == old(primary.calls) + attempt
      invariant Pending(whole, errors, node, script, attempt + 1, budget, 1 + maxRetries)
    {
      attempt := attempt + 1;
      var reply := primary.Call();
      assert reply == script(attempt);
      if reply.Answer? {
        PendingStop(whole, errors, node, script, attempt, budget, 1 + maxRetries);
        return Some(reply.value), errors;
      }
      PendingFailure(whole, errors, node, script, attempt, budget, 1 + maxRetries);
      errors := errors + [ProcessingError(node, reply.kind, reply.message, attempt)];
    }
    value := None;
  }

  /** The whole step. Both callables act for one call site, whose script gives the first
      1 + R attempts to the primary and the next one to the fallback. */
  method RunResilient<T>(
    node: StepName, primary: Endpoint<T>, fallback: Endpoint?<T>, maxRetries: nat)
    returns (tried: Tried<T>)
    requires primary != fallback
    requires primary.first + primary.calls == 1
    requires fallback != null ==>
               fallback.script == primary.script && fallback.first + fallback.calls == maxRetries + 2
    modifies primary, fallback
    ensures tried == Retry(node, primary.script, maxRetries, fallback != null)
    ensures primary.calls - old(primary.calls)
            + (if fallback == null then 0 else fallback.calls - old(fallback.calls)) == tried.Calls()
    ensures fallback != null && fallback.calls > old(fallback.calls) ==>
              primary.calls == old(primary.calls) + 1 + maxRetries
  {
    ghost var budget := Budget(maxRetries, fallback != null);
    ghost var whole := Retry(node, primary.script, maxRetries, fallback != null);
    PendingStart(node, primary.script, 1, budget, 1 + maxRetries);
    var value, errors := TryPrimary(node, primary, maxRetries, budget, whole);
    if value.Some? {
      tried := Tried(value, errors);
    } else if fallback != null {
      tried := TryFallback(node, fallback, maxRetries, errors, whole);
    } else {
      PendingStop(whole, errors, node, primary.script, maxRetries + 2, budget, 1 + maxRetries);
      tried := Tried(None, errors);
    }
  }
}

/** The audit trail: an append-only store whose writes may fail, and the wrapper that
    keeps such failures away from the pipeline. */
module Audit {
  import opened Schemas
  import opened Resilience

  datatype NodeName =
    | IntakeNode | RouterNode | OrchestratorNode | WorkerNode(documentId: string) | ValidatorNode
    | RiskNode | GateNode | AutoDecisionNode | HumanReviewNode | FinalizeNode | HandleErrorNode

  datatype EventType =
    | NodeCompleted | RuleTriggered | RegistryChecked | DecisionMade | HumanDecided | CaseCompleted | ErrorEvent

  datatype Payload =
    | NoPayload
    | ForRule(rule: RuleId)
    | ForDocuments(ids: seq<string>)
    | ForName(registry: Registry, name: string, hits: nat)
    | ForErrors(errors: seq<ProcessingError>)
    | ForDecision(decision: Decision)

  datatype AuditEvent = AuditEvent(caseId: string, node: NodeName, kind: EventType, payload: Payload)

  /** What is stored of a run of writes, when write number `n + i` succeeds iff `up(n + i)`. */
  function Stored(up: nat -> bool, n: nat, events: seq<AuditEvent>): seq<AuditEvent> {
    if events == [] then []
    else
      var last := |events| - 1;
      Stored(up, n, events[..last]) + if up(n + last) then [events[last]] else []
  }

  lemma {:induction false} StoredConcat(up: nat -> bool, n: nat, a: seq<AuditEvent>, b: seq<AuditEvent>)
    ensures Stored(up, n, a + b) == Stored(up, n, a) + Stored(up, n + |a|, b)
  {
    if b == [] {
      assert a + b == a;
    } else {
      var last := |b| - 1;
      StoredConcat(up, n, a, b[..last]);
      assert (a + b)[..|a + b| - 1] == a + b[..last];
    }
  }

  ghost predicate Subsequence<T>(s: seq<T>, t: seq<T>)
    decreases |t|
  {
    s == [] || (t != [] && (Subsequence(s, t[..|t| - 1])
                            || (s[|s| - 1] == t[|t| - 1] && Subsequence(s[..|s| - 1], t[..|t| - 1]))))
  }

  /** What is stored is a subsequence of what was emitted, and all of it when no write fails. */
  lemma {:induction false} StoredSubsequence(up: nat -> bool, n: nat, events: seq<AuditEvent>)
    ensures Subsequence(Stored(up, n, events), events)
    ensures (forall i: nat :: n <= i < n + |events| ==> up(i)) ==> Stored(up, n, events) == events
  {
    if events != [] {
      var last := |events| - 1;
      StoredSubsequence(up, n, events[..last]);
      var s := Stored(up, n, events);
      if up(n + last) {
        assert s[..|s| - 1] == Stored(up, n, events[..last]);
      } else {
        assert s == Stored(up, n, events[..last]);
      }
      assert events == events[..last] + [events[last]];
    }
  }

  function OfCase(events: seq<AuditEvent>, caseId: string): seq<AuditEvent> {
    if events == [] then []
    else
      var last := events[|events| - 1];
      OfCase(events[..|events| - 1], caseId) + if last.caseId == caseId then [last] else []
  }

  class InMemoryAuditSink {
    const up: nat -> bool
    var events: seq<AuditEvent>
    var writes: nat
    ghost var emitted: seq<AuditEvent>  // everything ever handed to Emit

    /** What is stored is what was emitted, less the writes that failed. */
    ghost predicate Valid()
      reads this
    {
      writes == |emitted| && events == Stored(up, 0, emitted)
    }

    constructor (up: nat -> bool)
      ensures this.up == up && emitted == [] && Valid()
    {
      this.up := up;
      events := [];
      writes := 0;
      emitted := [];
    }

    /** Appends the event, or raises and stores nothing. */
    method Emit(event: AuditEvent) returns (r: Reply<()>)
      requires Valid()
      modifies this
      ensures Valid()
      ensures emitted == old(emitted) + [event]
      ensures r.Answer? <==> up(old(writes))
      ensures events == old(events) + if up(old(writes)) then [event] else []
    {
      StoredOne(up, |emitted|, event);
      StoredConcat(up, 0, emitted, [event]);
      emitted := emitted + [event];
      writes := writes + 1;
      if !up(writes - 1) {
        return Raised("ConnectionError", "audit write failed");
      }
      events := events + [event];
      return Answer(());
    }

    method Events(caseId: string) returns (r: seq<AuditEvent>)
      ensures r == OfCase(events, caseId)
    {
      r := [];
      for i := 0 to |events|
        invariant r == OfCase(events[..i], caseId)
      {
        assert events[..i + 1][..i] == events[..i];
        if events[i].caseId == caseId {
          r := r + [events[i]];
        }
      }
      assert events[..|events|] == events;
    }
  }

  lemma StoredOne(up: nat -> bool, n: nat, event: AuditEvent)
    ensures Stored(up, n, [event]) == if up(n) then [event] else []
  {
    assert [event][..0] == [];
  }

  /** Write failures stop here: `Emit` always returns. */
  class SafeAuditSink {
    const inner: InMemoryAuditSink

    ghost predicate Valid()
      reads this, inner
    {
      inner.Valid()
    }

    ghost function Emitted(): seq<AuditEvent>
      reads this, inner
    {
      inner.emitted
    }

    constructor (inner: InMemoryAuditSink)
      ensures this.inner == inner
    {
      this.inner := inner;
    }

    method Emit(event: AuditEvent)
      requires Valid()
      modifies inner
      ensures Valid()
      ensures Emitted() == old(Emitted()) + [event]
    {
      var r := inner.Emit(event);
      if r.Raised? {
        assert inner.events == old(inner.events);
      }
    }
  }
}

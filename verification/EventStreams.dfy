/** The stream of a case's audit events: a reader of an append-only log while the runs of
    this case and of others go on writing between any two of its steps. */
module EventStreams {
  import opened Schemas
  import opened Audit
  import opened Nodes
  import opened Machine
  import Trails
  import Cases

  // --- runs that write while they are executed ---

  /** A case under way: the configuration its run has reached and, while a step is being
      executed, that step and how many of its events were emitted. The state, and with it
      the status, changes only when the step is through. */
  datatype Underway = Underway(config: Config, step: Option<Choice>, written: nat)

  const NOT_STARTED := Underway(INITIAL, None, 0)

  /** The events of the step being executed. */
  function StepEvents(w: World, inp: Inputs, u: Underway): seq<AuditEvent> {
    if u.step.Some? && Enabled(u.config, u.step.value) then EffectOf(w, inp, u.config, u.step.value).events else []
  }

  /** The case when the step being executed is through. */
  function Committed(w: World, inp: Inputs, u: Underway): Underway {
    if u.step.Some? && Enabled(u.config, u.step.value)
    then Underway(Next(w, inp, u.config, u.step.value), None, 0) else u
  }

  ghost predicate WellFormed(w: World, inp: Inputs, u: Underway) {
    && Cases.Reachable(w, inp, u.config)
    && (u.step.Some? ==> Enabled(u.config, u.step.value))
    && u.written <= |StepEvents(w, inp, u)|
  }

  /** The case is on a run of the machine, and has emitted what the run has so far. */
  ghost predicate Sound(w: World, inp: Inputs, u: Underway, emitted: seq<AuditEvent>) {
    WellFormed(w, inp, u) && emitted == u.config.events + StepEvents(w, inp, u)[..u.written]
  }

  predicate IsFinal(u: Underway) {
    u.config.st.status in {Completed, Failed}
  }

  /** A case with a final status has ended: there is no step to take. */
  lemma FinalIsOver(w: World, inp: Inputs, c: Config)
    requires Cases.Reachable(w, inp, c) && c.st.status in {Completed, Failed}
    ensures c.pc.Done?
    ensures forall ch :: !Enabled(c, ch)
  {
    var choices :| Exec(w, inp, choices) == Some(c);
    Cases.StatusOfRuns(w, inp, choices);
  }

  lemma FinalIsIdle(w: World, inp: Inputs, u: Underway, emitted: seq<AuditEvent>)
    requires Sound(w, inp, u, emitted) && IsFinal(u)
    ensures u.step.None? && StepEvents(w, inp, u) == [] && u.config.pc.Done?
    ensures emitted == u.config.events
    ensures forall ch :: !Enabled(u.config, ch)
  {
    FinalIsOver(w, inp, u.config);
    assert u.config.events + [][..0] == u.config.events;
  }

  lemma NotStartedSound(w: World, inp: Inputs)
    ensures Sound(w, inp, NOT_STARTED, [])
  {
    assert Exec(w, inp, []) == Some(INITIAL);
  }

  lemma BeginSound(w: World, inp: Inputs, u: Underway, ch: Choice, emitted: seq<AuditEvent>)
    requires Sound(w, inp, u, emitted) && u.step.None? && Enabled(u.config, ch)
    ensures Sound(w, inp, u.(step := Some(ch), written := 0), emitted)
  {
    var v := u.(step := Some(ch), written := 0);
    assert u.config.events + StepEvents(w, inp, u)[..u.written] == u.config.events + StepEvents(w, inp, v)[..0];
  }

  lemma SameStep(w: World, inp: Inputs, u: Underway, v: Underway)
    requires u.config == v.config && u.step == v.step
    ensures StepEvents(w, inp, u) == StepEvents(w, inp, v)
  {
  }

  lemma OneMoreWritten(base: seq<AuditEvent>, events: seq<AuditEvent>, n: nat)
    requires n < |events|
    ensures (base + events[..n]) + [events[n]] == base + events[..n + 1]
  {
  }

  lemma WriteSound(w: World, inp: Inputs, u: Underway, emitted: seq<AuditEvent>)
    requires Sound(w, inp, u, emitted) && u.written < |StepEvents(w, inp, u)|
    ensures Sound(w, inp, u.(written := u.written + 1), emitted + [StepEvents(w, inp, u)[u.written]])
  {
    SameStep(w, inp, u, u.(written := u.written + 1));
    OneMoreWritten(u.config.events, StepEvents(w, inp, u), u.written);
  }

  lemma CommitSound(w: World, inp: Inputs, u: Underway, emitted: seq<AuditEvent>)
    requires Sound(w, inp, u, emitted) && u.step.Some? && u.written == |StepEvents(w, inp, u)|
    ensures Sound(w, inp, Committed(w, inp, u), emitted)
  {
    var events := StepEvents(w, inp, u);
    Cases.ReachableStep(w, inp, u.config, u.step.value);
    assert events[..u.written] == events;
    assert Committed(w, inp, u).config.events == u.config.events + events;
  }

  lemma TrailOfCase(inp: Inputs, pc: Pc, d: Option<Decision>, events: seq<AuditEvent>)
    requires Trails.TrailOf(inp, pc, d, events)
    ensures forall e :: e in events ==> e.caseId == inp.caseId
  {
  }

  /** A step emits events of its own case only. */
  lemma StepEventsOfCase(w: World, inp: Inputs, u: Underway)
    requires WellFormed(w, inp, u)
    ensures forall e :: e in StepEvents(w, inp, u) ==> e.caseId == inp.caseId
  {
    if u.step.Some? {
      var next := Committed(w, inp, u).config;
      Cases.ReachableStep(w, inp, u.config, u.step.value);
      var choices :| Exec(w, inp, choices) == Some(next);
      Trails.TrailEnds(w, inp, choices);
      TrailOfCase(inp, next.pc, next.st.decision, next.events);
      assert next.events == u.config.events + StepEvents(w, inp, u);
    }
  }

  // --- the log of a case ---

  /** The numbers of a case's writes among all writes. */
  function WritesOf(events: seq<AuditEvent>, id: string): (r: seq<nat>)
    ensures |r| == |OfCase(events, id)|
  {
    if events == [] then []
    else
      var last := |events| - 1;
      WritesOf(events[..last], id) + if events[last].caseId == id then [last] else []
  }

  /** The events whose writes succeeded, when event i was write number `writes[i]`. */
  function Kept(up: nat -> bool, writes: seq<nat>, events: seq<AuditEvent>): seq<AuditEvent>
    requires |writes| == |events|
  {
    if events == [] then []
    else
      var last := |events| - 1;
      Kept(up, writes[..last], events[..last]) + if up(writes[last]) then [events[last]] else []
  }

  lemma OfCaseAppend(events: seq<AuditEvent>, event: AuditEvent, id: string)
    ensures OfCase(events + [event], id) == OfCase(events, id) + if event.caseId == id then [event] else []
  {
    assert (events + [event])[..|events|] == events;
  }

  lemma KeptAppend(up: nat -> bool, writes: seq<nat>, events: seq<AuditEvent>, n: nat, e: AuditEvent)
    requires |writes| == |events|
    ensures Kept(up, writes + [n], events + [e]) == Kept(up, writes, events) + if up(n) then [e] else []
  {
    assert (writes + [n])[..|writes|] == writes && (events + [e])[..|events|] == events;
  }

  /** The stored log of a case is what is left of the case's events. */
  lemma {:induction false} LogIsKept(up: nat -> bool, events: seq<AuditEvent>, id: string)
    ensures OfCase(Stored(up, 0, events), id) == Kept(up, WritesOf(events, id), OfCase(events, id))
  {
    if events != [] {
      var front, last, n := events[..|events| - 1], events[|events| - 1], |events| - 1;
      LogIsKept(up, front, id);
      OfCaseAppend(Stored(up, 0, front), last, id);
      KeptAppend(up, WritesOf(front, id), OfCase(front, id), n, last);
      assert Stored(up, 0, front) + [] == Stored(up, 0, front);
      assert OfCase(Stored(up, 0, front), id) + [] == OfCase(Stored(up, 0, front), id);
      assert WritesOf(front, id) + [] == WritesOf(front, id) && OfCase(front, id) + [] == OfCase(front, id);
    }
  }

  lemma {:induction false} KeptFrom(up: nat -> bool, writes: seq<nat>, events: seq<AuditEvent>, e: AuditEvent)
    requires |writes| == |events| && e in Kept(up, writes, events)
    ensures e in events
  {
    var last := |events| - 1;
    if e in Kept(up, writes[..last], events[..last]) {
      KeptFrom(up, writes[..last], events[..last], e);
    }
  }

  /** Whether the last event was kept. */
  lemma KeptLast(up: nat -> bool, writes: seq<nat>, events: seq<AuditEvent>)
    requires |writes| == |events| > 0
    requires forall i :: 0 <= i < |events| - 1 ==> events[i] != events[|events| - 1]
    ensures var kept := Kept(up, writes, events);
            && (events[|events| - 1] in kept <==> up(writes[|events| - 1]))
            && (up(writes[|events| - 1]) ==> kept != [] && kept[|kept| - 1] == events[|events| - 1])
  {
    var last := |events| - 1;
    if events[last] in Kept(up, writes[..last], events[..last]) {
      KeptFrom(up, writes[..last], events[..last], events[last]);
    }
  }

  /** `log` is all that will ever be recorded of a finished run: its events less the failed
      writes, ending in `case_completed` exactly if that write succeeded. */
  ghost predicate WholeLog(inp: Inputs, c: Config, up: nat -> bool, writes: seq<nat>, log: seq<AuditEvent>) {
    && c.pc.Done? && c.st.decision.Some?
    && |writes| == |c.events| >= 2
    && log == Kept(up, writes, c.events)
    && var completed := Trails.CompletedEvent(inp, c.st.decision.value);
    && c.events[|c.events| - 1] == completed
    && (completed in log <==> up(writes[|writes| - 1]))
    && (up(writes[|writes| - 1]) ==> log != [] && log[|log| - 1] == completed)
  }

  lemma CompletedIsLast(inp: Inputs, decision: Option<Decision>, events: seq<AuditEvent>)
    requires Trails.TrailOf(inp, Done, decision, events)
    ensures decision.Some? && |events| >= 2
    ensures events[|events| - 1] == Trails.CompletedEvent(inp, decision.value)
    ensures forall i :: 0 <= i < |events| - 1 ==> events[i] != events[|events| - 1]
  {
    var front :| Trails.Ordinary(inp, front) && events == front + Trails.Ending(inp, Done, decision.value);
    forall i | 0 <= i < |events| - 1
      ensures events[i] != events[|events| - 1]
    {
      Trails.ClosingEventsLast(inp, decision.value, front, events, i);
      Trails.ClosingEventsLast(inp, decision.value, front, events, |events| - 1);
    }
  }

  lemma FinalTrail(w: World, inp: Inputs, c: Config)
    requires Cases.Reachable(w, inp, c) && c.pc.Done?
    ensures Trails.TrailOf(inp, Done, c.st.decision, c.events)
  {
    var choices :| Exec(w, inp, choices) == Some(c);
    Trails.TrailEnds(w, inp, choices);
  }

  /** The log of a case with a final status. */
  lemma FinalLog(w: World, inp: Inputs, u: Underway, up: nat -> bool, emitted: seq<AuditEvent>)
    requires Sound(w, inp, u, OfCase(emitted, inp.caseId)) && IsFinal(u)
    ensures WholeLog(inp, u.config, up, WritesOf(emitted, inp.caseId), OfCase(Stored(up, 0, emitted), inp.caseId))
  {
    var id := inp.caseId;
    FinalIsIdle(w, inp, u, OfCase(emitted, id));
    FinalTrail(w, inp, u.config);
    CompletedIsLast(inp, u.config.st.decision, u.config.events);
    LogIsKept(up, emitted, id);
    KeptLast(up, WritesOf(emitted, id), u.config.events);
  }

  /** What goes on elsewhere: a step begins, a step under way emits its next event, a step
      that has emitted all its events takes effect. */
  datatype Activity = Begin(caseId: string, choice: Choice) | Write(caseId: string) | Commit(caseId: string)

  /** The part of the service a stream sees: the audit trail, and the states of the cases
      whose runs write it. */
  class Service {
    const worlds: string -> World
    const inputs: string -> Inputs
    const sink: InMemoryAuditSink
    const script: nat -> Activity  // what happens, if it can, in each quantum of time
    const pace: nat -> nat         // how many quanta pass at each tick
    var cases: map<string, Underway>
    var quanta: nat
    var ticks: nat

    function At(id: string): Underway
      reads this
    {
      if id in cases then cases[id] else NOT_STARTED
    }

    /** `is_finished`: the state shows a final status. */
    predicate Finished(id: string)
      reads this
    {
      IsFinal(At(id))
    }

    /** Every case is on a run of the machine, and the sink was handed what the runs emitted. */
    ghost predicate Valid()
      reads this, sink
    {
      && sink.Valid()
      && (forall id :: inputs(id).caseId == id)
      && forall id {:trigger OfCase(sink.emitted, id)} :: Sound(worlds(id), inputs(id), At(id), OfCase(sink.emitted, id))
    }

    constructor (
      worlds: string -> World, inputs: string -> Inputs, sink: InMemoryAuditSink, script: nat -> Activity, pace: nat -> nat)
      requires sink.Valid() && sink.emitted == []
      requires forall id :: inputs(id).caseId == id
      ensures this.worlds == worlds && this.inputs == inputs && this.sink == sink
      ensures this.script == script && this.pace == pace
      ensures Valid()
    {
      this.worlds, this.inputs, this.sink, this.script, this.pace := worlds, inputs, sink, script, pace;
      cases, quanta, ticks := map[], 0, 0;
      new;
      forall id
        ensures Sound(worlds(id), inputs(id), At(id), OfCase(sink.emitted, id))
      {
        NotStartedSound(worlds(id), inputs(id));
      }
    }

    method BeginStep(id: string, ch: Choice)
      requires Valid()
      modifies this`cases
      ensures Valid()
      ensures forall id :: old(Finished(id)) ==> At(id) == old(At(id))
    {
      var u := At(id);
      if u.step.None? && Enabled(u.config, ch) {
        BeginSound(worlds(id), inputs(id), u, ch, OfCase(sink.emitted, id));
        if Finished(id) {
          FinalIsOver(worlds(id), inputs(id), u.config);
          assert false;
        }
        cases := cases[id := u.(step := Some(ch), written := 0)];
      }
    }

    method WriteEvent(id: string)
      requires Valid()
      modifies this`cases, sink
      ensures Valid()
      ensures forall id :: old(Finished(id)) ==> At(id) == old(At(id))
      ensures forall id :: OfCase(old(sink.events), id) <= OfCase(sink.events, id)
      ensures forall id :: old(Finished(id)) ==> OfCase(sink.events, id) == OfCase(old(sink.events), id)
    {
      var u := At(id);
      var events := StepEvents(worlds(id), inputs(id), u);
      if u.written < |events| {
        var event := events[u.written];
        ghost var emitted, stored := sink.emitted, sink.events;
        WriteSound(worlds(id), inputs(id), u, OfCase(emitted, id));
        StepEventsOfCase(worlds(id), inputs(id), u);
        assert event in events;
        if Finished(id) {
          FinalIsIdle(worlds(id), inputs(id), u, OfCase(emitted, id));
          assert false;
        }
        var r := sink.Emit(event);
        cases := cases[id := u.(written := u.written + 1)];
        forall other
          ensures OfCase(sink.emitted, other) == OfCase(emitted, other) + if id == other then [event] else []
          ensures OfCase(sink.events, other) == OfCase(stored, other)
                  || (other == id && OfCase(sink.events, other) == OfCase(stored, other) + [event])
        {
          OfCaseAppend(emitted, event, other);
          OfCaseAppend(stored, event, other);
          assert sink.events == stored || sink.events == stored + [event];
        }
      }
    }

    method CommitStep(id: string)
      requires Valid()
      modifies this`cases
      ensures Valid()
      ensures forall id :: old(Finished(id)) ==> At(id) == old(At(id))
    {
      var u := At(id);
      if u.step.Some? && u.written == |StepEvents(worlds(id), inputs(id), u)| {
        CommitSound(worlds(id), inputs(id), u, OfCase(sink.emitted, id));
        if Finished(id) {
          FinalIsIdle(worlds(id), inputs(id), u, OfCase(sink.emitted, id));
          assert false;
        }
        cases := cases[id := Committed(worlds(id), inputs(id), u)];
      }
    }

    method Quantum()
      requires Valid()
      modifies this, sink
      ensures Valid()
      ensures forall id :: old(Finished(id)) ==> At(id) == old(At(id))
      ensures forall id :: OfCase(old(sink.events), id) <= OfCase(sink.events, id)
      ensures forall id :: old(Finished(id)) ==> OfCase(sink.events, id) == OfCase(old(sink.events), id)
    {
      match script(quanta) {
        case Begin(id, ch) => BeginStep(id, ch);
        case Write(id) => WriteEvent(id);
        case Commit(id) => CommitStep(id);
      }
      quanta := quanta + 1;
    }

    /** Time passes: logs only grow, and a finished case and its log stay as they are. */
    method Elapse()
      requires Valid()
      modifies this, sink
      ensures Valid()
      ensures forall id :: old(Finished(id)) ==> At(id) == old(At(id))
      ensures forall id :: OfCase(old(sink.events), id) <= OfCase(sink.events, id)
      ensures forall id :: old(Finished(id)) ==> OfCase(sink.events, id) == OfCase(old(sink.events), id)
    {
      var n := pace(ticks);
      for i := 0 to n
        invariant Valid()
        invariant forall id :: old(Finished(id)) ==> At(id) == old(At(id))
        invariant forall id :: OfCase(old(sink.events), id) <= OfCase(sink.events, id)
        invariant forall id :: old(Finished(id)) ==> OfCase(sink.events, id) == OfCase(old(sink.events), id)
      {
        Quantum();
      }
      ticks := ticks + 1;
    }
  }

  class EventStream {
    const service: Service
    const caseId: string
    var sent: nat
    var delivered: seq<AuditEvent>

    /** What was delivered is the start of the case's log, of length `sent`. */
    ghost predicate Valid()
      reads this, service, service.sink
    {
      service.Valid() && sent == |delivered| && delivered <= Log()
    }

    ghost function Log(): seq<AuditEvent>
      reads service, service.sink
    {
      OfCase(service.sink.events, caseId)
    }

    /** The case is finished, and what was delivered is all that is recorded of its run. */
    ghost predicate Complete()
      reads this, service, service.sink
    {
      && service.Finished(caseId)
      && WholeLog(service.inputs(caseId), service.At(caseId).config, service.sink.up,
                  WritesOf(service.sink.emitted, caseId), delivered)
    }

    constructor (service: Service, caseId: string)
      requires service.Valid()
      ensures this.service == service && this.caseId == caseId && sent == 0 && Valid()
    {
      this.service := service;
      this.caseId := caseId;
      sent, delivered := 0, [];
    }

    /** Yields the events from `sent` on, one at a time; time passes after each. At every
        step what was delivered is the start of the case's log: no gap and no repetition. */
    method Deliver(events: seq<AuditEvent>)
      requires Valid() && delivered <= events <= Log()
      modifies this, service, service.sink
      ensures service.Valid() && delivered == events && events <= Log() && sent == old(sent)
      ensures old(service.Finished(caseId)) ==>
                service.At(caseId) == old(service.At(caseId)) && Log() == old(Log())
    {
      for i := sent to |events|
        invariant service.Valid() && delivered == events[..i] && events <= Log() && sent == old(sent)
        invariant old(service.Finished(caseId)) ==>
                    service.At(caseId) == old(service.At(caseId)) && Log() == old(Log())
      {
        delivered := delivered + [events[i]];
        service.Elapse();
      }
    }

    /** Delivers what the log holds by now. */
    method CatchUp()
      requires Valid()
      modifies this, service, service.sink
      ensures Valid() && old(delivered) <= delivered
      ensures old(service.Finished(caseId)) ==> service.Finished(caseId) && delivered == Log()
    {
      var events := service.sink.Events(caseId);
      Deliver(events);
      sent := |events|;
    }

    /** Whether the case is finished and, looking at the log once more, nothing is missing. */
    method NothingMissing() returns (ended: bool)
      requires Valid()
      modifies service, service.sink
      ensures Valid()
      ensures ended ==> service.Finished(caseId) && delivered == Log()
      ensures old(service.Finished(caseId) && delivered == Log()) ==> ended
    {
      service.Elapse();
      ended := false;
      if service.Finished(caseId) {
        service.Elapse();
        var now := service.sink.Events(caseId);
        ended := sent == |now|;
      }
    }

    /** One turn of the loop. It ends the stream only when the case is finished and all that
        is recorded of its run was delivered, and it does if the case was finished before. */
    method Poll() returns (ended: bool)
      requires Valid()
      modifies this, service, service.sink
      ensures Valid() && old(delivered) <= delivered
      ensures ended ==> Complete()
      ensures old(service.Finished(caseId)) ==> ended
    {
      CatchUp();
      ended := NothingMissing();
      if ended {
        FinalLog(service.worlds(caseId), service.inputs(caseId), service.At(caseId), service.sink.up, service.sink.emitted);
      }
    }

    /** The stream, for a client that leaves after poll k if `leaves(k)`, and after poll
        `patience` at the latest. If it returns because the case is finished, it has delivered
        all that is ever recorded of the case's run, which ends in `case_completed` unless that
        write failed; if it returns because the client left, it has delivered the start of the
        log, and the case was not finished when the last poll began. */
    method Run(leaves: nat -> bool, patience: nat) returns (complete: bool, ghost finishedBefore: bool)
      requires Valid()
      modifies this, service, service.sink
      ensures Valid() && old(delivered) <= delivered
      ensures complete ==> Complete()
      ensures !complete ==> !finishedBefore
      ensures old(service.Finished(caseId)) ==> complete
    {
      var polls := 0;
      complete, finishedBefore := false, service.Finished(caseId);
      while true
        invariant Valid() && old(delivered) <= delivered
        invariant polls <= patience
        invariant old(service.Finished(caseId)) ==> service.Finished(caseId)
        decreases patience - polls
      {
        finishedBefore := service.Finished(caseId);
        complete := Poll();
        if complete || leaves(polls) || polls == patience {
          return;
        }
        service.Elapse();
        polls := polls + 1;
      }
    }

    /** Complete for good: whatever else goes on, nothing is missed by having returned. */
    method Later()
      requires Valid() && Complete()
      modifies service, service.sink
      ensures Valid() && delivered == Log()
    {
      FinalLog(service.worlds(caseId), service.inputs(caseId), service.At(caseId), service.sink.up, service.sink.emitted);
      service.Elapse();
    }
  }
}

/** The state of a case and how a step's update is merged into it: some channels are
    replaced, the others are additive. */
module Channels {
  import opened Schemas

  type Counts = map<StepName, nat>

  function CountOf(m: Counts, k: StepName): nat {
    if k in m then m[k] else 0
  }

  function MergeCounts(left: Counts, right: Counts): (m: Counts)
    ensures m.Keys == left.Keys + right.Keys
    ensures forall k :: CountOf(m, k) == CountOf(left, k) + CountOf(right, k)
  {
    map k | k in left.Keys + right.Keys :: CountOf(left, k) + CountOf(right, k)
  }

  /** `_merge_counts`: a copy of the left counts, updated key by key. */
  method MergeCountsInPlace(left: Counts, right: Counts) returns (merged: Counts)
    ensures merged == MergeCounts(left, right)
  {
    merged := left;
    var keys := right.Keys;
    while keys != {}
      invariant keys <= right.Keys
      invariant merged.Keys == left.Keys + (right.Keys - keys)
      invariant forall k :: CountOf(merged, k) == CountOf(left, k) + if k in keys then 0 else CountOf(right, k)
      decreases keys
    {
      var key :| key in keys;
      merged := merged[key := CountOf(merged, key) + right[key]];
      keys := keys - {key};
    }
    MergedByCounts(merged, MergeCounts(left, right));
  }

  lemma MergedByCounts(m: Counts, n: Counts)
    requires m.Keys == n.Keys && forall k :: CountOf(m, k) == CountOf(n, k)
    ensures m == n
  {
    forall k | k in m
      ensures k in n && m[k] == n[k]
    {
      assert CountOf(m, k) == CountOf(n, k);
      assert k in n.Keys;
    }
  }

  /** Merging is commutative and associative with the empty map as unit, so the order in
      which workers fan in cannot matter. */
  lemma MergeCountsAlgebra(a: Counts, b: Counts, c: Counts)
    ensures MergeCounts(a, b) == MergeCounts(b, a)
    ensures MergeCounts(MergeCounts(a, b), c) == MergeCounts(a, MergeCounts(b, c))
    ensures MergeCounts(a, map[]) == a
  {
    MergedByCounts(MergeCounts(a, b), MergeCounts(b, a));
    MergedByCounts(MergeCounts(MergeCounts(a, b), c), MergeCounts(a, MergeCounts(b, c)));
    MergedByCounts(MergeCounts(a, map[]), a);
  }

  datatype State = State(
    status: CaseStatus,
    classified: seq<ClassifiedDocument>,
    completeness: Option<RuleFlag>,
    validation: Option<ValidationReport>,
    risk: Option<RiskAssessment>,
    decision: Option<Decision>,
    extractions: seq<ExtractionResult>,
    errors: seq<ProcessingError>,
    retryCounts: Counts,
    degradedReasons: seq<DegradedReason>)

  const FRESH := State(Received, [], None, None, None, None, [], [], map[], [])

  /** What a step returns: `None` leaves a channel alone. */
  datatype Update = Update(
    status: Option<CaseStatus>,
    classified: Option<seq<ClassifiedDocument>>,
    completeness: Option<Option<RuleFlag>>,
    validation: Option<ValidationReport>,
    risk: Option<RiskAssessment>,
    decision: Option<Decision>,
    extractions: seq<ExtractionResult>,
    errors: seq<ProcessingError>,
    retryCounts: Counts,
    degradedReasons: seq<DegradedReason>)

  const NO_UPDATE := Update(None, None, None, None, None, None, [], [], map[], [])

  function Set<T>(was: T, now: Option<T>): T {
    if now.Some? then now.value else was
  }

  function SetOption<T>(was: Option<T>, now: Option<T>): Option<T> {
    if now.Some? then now else was
  }

  function Apply(s: State, u: Update): State {
    State(
      Set(s.status, u.status),
      Set(s.classified, u.classified),
      Set(s.completeness, u.completeness),
      SetOption(s.validation, u.validation),
      SetOption(s.risk, u.risk),
      SetOption(s.decision, u.decision),
      s.extractions + u.extractions,
      s.errors + u.errors,
      MergeCounts(s.retryCounts, u.retryCounts),
      s.degradedReasons + u.degradedReasons)
  }

  predicate Degraded(s: State) {
    s.degradedReasons != []
  }
}

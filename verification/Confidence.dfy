/** The overall confidence of a case: the worst field confidence, capped, less the
    warnings, rounded to four places, clamped to [0, 1]. */
module Confidence {
  import opened Schemas

  function Min(a: real, b: real): real { if b < a then b else a }

  function Max(a: real, b: real): real { if b > a then b else a }

  function MinOr(values: seq<real>, default: real): (m: real)
    ensures values == [] ==> m == default
    ensures values != [] ==> m in values && forall v :: v in values ==> m <= v
  {
    if values == [] then default
    else if |values| == 1 then values[0]
    else
      var last := |values| - 1;
      var m := MinOr(values[..last], default);
      assert values == values[..last] + [values[last]];
      Min(m, values[last])
  }

  /** Field confidences of the readable documents. */
  function Values(es: seq<ExtractionResult>): seq<real> {
    if es == [] then []
    else
      var last := |es| - 1;
      Values(es[..last]) + if es[last].error.None? then es[last].confidences else []
  }

  function Warnings(flags: seq<RuleFlag>): nat {
    if flags == [] then 0
    else Warnings(flags[..|flags| - 1]) + if flags[|flags| - 1].severity == Warning then 1 else 0
  }

  predicate AnyUnreadable(es: seq<ExtractionResult>) {
    exists e | e in es :: e.error.Some?
  }

  /** Python's `round` to an integer: half to even. */
  function RoundHalfEven(x: real): int {
    var f := x.Floor;
    var rest := x - f as real;
    if rest < 0.5 || (rest == 0.5 && f % 2 == 0) then f else f + 1
  }

  function Round4(x: real): real {
    RoundHalfEven(x * 10000.0) as real / 10000.0
  }

  function Clamp(x: real): real {
    Max(0.0, Min(1.0, x))
  }

  function Penalty(warnings: nat): real {
    0.05 * (if warnings < 3 then warnings else 3) as real
  }

  /** The formula before rounding, from the four things it depends on. */
  function Formula(worst: real, ungrounded: bool, unreadable: bool, warnings: nat): real {
    var grounded := if ungrounded then Min(worst, 0.4) else worst;
    var readable := if unreadable then Min(grounded, 0.5) else grounded;
    readable - Penalty(warnings)
  }

  function Unrounded(es: seq<ExtractionResult>, grounding: seq<RuleFlag>, flags: seq<RuleFlag>): real {
    Formula(MinOr(Values(es), 0.3), grounding != [], AnyUnreadable(es), Warnings(flags))
  }

  function Overall(es: seq<ExtractionResult>, grounding: seq<RuleFlag>, flags: seq<RuleFlag>): real {
    Clamp(Round4(Unrounded(es, grounding, flags)))
  }

  method OverallConfidence(es: seq<ExtractionResult>, grounding: seq<RuleFlag>, flags: seq<RuleFlag>)
    returns (confidence: real)
    ensures confidence == Overall(es, grounding, flags)
  {
    var values: seq<real> := [];
    for i := 0 to |es|
      invariant values == Values(es[..i])
    {
      assert es[..i + 1][..i] == es[..i];
      if es[i].error.None? {
        values := values + es[i].confidences;
      }
    }
    assert es[..|es|] == es;
    confidence := MinOr(values, 0.3);
    if grounding != [] {
      confidence := Min(confidence, 0.4);
    }
    if AnyUnreadable(es) {
      confidence := Min(confidence, 0.5);
    }
    var warnings := 0;
    for i := 0 to |flags|
      invariant warnings == Warnings(flags[..i])
    {
      assert flags[..i + 1][..i] == flags[..i];
      if flags[i].severity == Warning {
        warnings := warnings + 1;
      }
    }
    assert flags[..|flags|] == flags;
    confidence := confidence - 0.05 * (if warnings < 3 then warnings else 3) as real;
    confidence := Max(0.0, Min(1.0, Round4(confidence)));
  }

  lemma RoundMonotone(x: real, y: real)
    requires x <= y
    ensures RoundHalfEven(x) <= RoundHalfEven(y)
  {
    assert x.Floor <= y.Floor;
  }

  lemma Round4Monotone(x: real, y: real)
    requires x <= y
    ensures Round4(x) <= Round4(y)
  {
    RoundMonotone(x * 10000.0, y * 10000.0);
  }

  lemma RoundNear(x: real)
    ensures x - 0.5 <= RoundHalfEven(x) as real <= x + 0.5
  {
  }

  /** Rounding to four places keeps a number that has four places. */
  lemma Round4Exact(n: int)
    ensures Round4(n as real / 10000.0) == n as real / 10000.0
  {
    var x := n as real / 10000.0 * 10000.0;
    assert x == n as real;
    assert x.Floor == n;
  }

  /** Confidence lies in [0, 1] and differs from the unrounded clamped value by at most
      0.00005. */
  lemma ConfidenceRange(es: seq<ExtractionResult>, grounding: seq<RuleFlag>, flags: seq<RuleFlag>)
    ensures 0.0 <= Overall(es, grounding, flags) <= 1.0
    ensures Clamp(Unrounded(es, grounding, flags)) - 0.00005
            <= Overall(es, grounding, flags)
            <= Clamp(Unrounded(es, grounding, flags)) + 0.00005
  {
    var u := Unrounded(es, grounding, flags);
    RoundNear(u * 10000.0);
    assert u - 0.00005 <= Round4(u) <= u + 0.00005;
  }

  lemma FormulaMonotone(worst: real, g: bool, u: bool, n: nat, worst': real, g': bool, u': bool, n': nat)
    requires worst' <= worst && (g ==> g') && (u ==> u') && n <= n'
    ensures Clamp(Round4(Formula(worst', g', u', n'))) <= Clamp(Round4(Formula(worst, g, u, n)))
  {
    assert Formula(worst', g', u', n') <= Formula(worst, g, u, n);
    Round4Monotone(Formula(worst', g', u', n'), Formula(worst, g, u, n));
  }

  lemma {:induction false} WarningsConcat(s: seq<RuleFlag>, t: seq<RuleFlag>)
    ensures Warnings(s + t) == Warnings(s) + Warnings(t)
  {
    if t == [] {
      assert s + t == s;
    } else {
      WarningsConcat(s, t[..|t| - 1]);
      assert (s + t)[..|s + t| - 1] == s + t[..|t| - 1];
    }
  }

  /** Confidence never rises when flags are added, wherever they go, or grounding flags, or
      an unreadable document. */
  lemma ConfidenceMonotone(
    es: seq<ExtractionResult>, grounding: seq<RuleFlag>, flags: seq<RuleFlag>,
    moreGrounding: seq<RuleFlag>, moreFlags: seq<RuleFlag>, unreadable: ExtractionResult)
    requires unreadable.error.Some?
    ensures Overall(es, grounding + moreGrounding, flags + moreFlags) <= Overall(es, grounding, flags)
    ensures Overall(es + [unreadable], grounding, flags) <= Overall(es, grounding, flags)
  {
    WarningsConcat(flags, moreFlags);
    var worst := MinOr(Values(es), 0.3);
    FormulaMonotone(worst, grounding != [], AnyUnreadable(es), Warnings(flags),
                    worst, grounding + moreGrounding != [], AnyUnreadable(es), Warnings(flags + moreFlags));
    assert (es + [unreadable])[..|es|] == es;
    assert Values(es + [unreadable]) == Values(es);
    FormulaMonotone(worst, grounding != [], AnyUnreadable(es), Warnings(flags),
                    worst, grounding != [], AnyUnreadable(es + [unreadable]), Warnings(flags));
  }

  // --- the value, written out ---

  /** The lowest confidence of a field of a readable document; 0.3 if there is none. */
  ghost predicate IsWorst(es: seq<ExtractionResult>, worst: real) {
    if exists e :: e in es && e.error.None? && e.confidences != [] then
      && (exists e :: e in es && e.error.None? && worst in e.confidences)
      && forall e, v :: e in es && e.error.None? && v in e.confidences ==> worst <= v
    else worst == 0.3
  }

  /** The least of the worst confidence, 0.4 if something is ungrounded, and 0.5 if a document
      is unreadable. */
  ghost predicate IsCapped(worst: real, ungrounded: bool, unreadable: bool, capped: real) {
    && capped <= worst && (ungrounded ==> capped <= 0.4) && (unreadable ==> capped <= 0.5)
    && (capped == worst || (ungrounded && capped == 0.4) || (unreadable && capped == 0.5))
  }

  /** The capped confidence, less 0.05 for each of the first three warnings. */
  function LessWarnings(capped: real, warnings: nat): real {
    if warnings == 0 then capped
    else if warnings == 1 then capped - 0.05
    else if warnings == 2 then capped - 0.1
    else capped - 0.15
  }

  /** `n` ten-thousandths is the nearest number of four places, and an even one of two. */
  ghost predicate Nearest(x: real, n: int) {
    && n as real - 0.5 <= x * 10000.0 <= n as real + 0.5
    && (x * 10000.0 == n as real - 0.5 || x * 10000.0 == n as real + 0.5 ==> n % 2 == 0)
  }

  lemma RoundNearest(x: real)
    ensures Nearest(x, RoundHalfEven(x * 10000.0))
  {
  }

  lemma WorstExact(es: seq<ExtractionResult>, worst: real)
    requires IsWorst(es, worst)
    ensures MinOr(Values(es), 0.3) == worst
  {
    var values := Values(es);
    forall v
      ensures v in values <==> exists e :: e in es && e.error.None? && v in e.confidences
    {
      ValuesOrigin(es, v);
    }
    if e :| e in es && e.error.None? && e.confidences != [] {
      assert e.confidences[0] in e.confidences;
      assert e.confidences[0] in values && worst in values;
    } else {
      assert values != [] ==> values[0] in values;
    }
  }

  /** There is always such a confidence. */
  lemma WorstExists(es: seq<ExtractionResult>) returns (worst: real)
    ensures IsWorst(es, worst)
  {
    worst := MinOr(Values(es), 0.3);
    forall v
      ensures v in Values(es) <==> exists e :: e in es && e.error.None? && v in e.confidences
    {
      ValuesOrigin(es, v);
    }
    if e :| e in es && e.error.None? && e.confidences != [] {
      assert e.confidences[0] in e.confidences;
      assert e.confidences[0] in Values(es) && worst in Values(es);
      forall e, v | e in es && e.error.None? && v in e.confidences
        ensures worst <= v
      {
        assert v in Values(es);
      }
    } else {
      NoValues(es);
    }
  }

  lemma {:induction false} NoValues(es: seq<ExtractionResult>)
    requires forall e :: e in es && e.error.None? ==> e.confidences == []
    ensures Values(es) == []
  {
    if es != [] {
      NoValues(es[..|es| - 1]);
    }
  }

  /** The confidence is the worst one, capped, less the warnings, to four places, and kept in
      [0, 1]. */
  lemma ConfidenceExact(
    es: seq<ExtractionResult>, grounding: seq<RuleFlag>, flags: seq<RuleFlag>, worst: real, capped: real)
    returns (n: int)
    requires IsWorst(es, worst)
    requires IsCapped(worst, grounding != [], exists e :: e in es && e.error.Some?, capped)
    ensures Nearest(LessWarnings(capped, Warnings(flags)), n)
    ensures Overall(es, grounding, flags) == if n < 0 then 0.0 else if n > 10000 then 1.0 else n as real / 10000.0
  {
    var u := LessWarnings(capped, Warnings(flags));
    WorstExact(es, worst);
    assert Unrounded(es, grounding, flags) == u;
    n := RoundHalfEven(u * 10000.0);
    RoundNearest(u);
  }

  /** When the capped confidence has four places, nothing is rounded away. */
  lemma ConfidenceOfFourPlaces(
    es: seq<ExtractionResult>, grounding: seq<RuleFlag>, flags: seq<RuleFlag>, worst: real, capped: real, k: nat)
    requires IsWorst(es, worst)
    requires IsCapped(worst, grounding != [], exists e :: e in es && e.error.Some?, capped)
    requires capped == k as real / 10000.0 && k <= 10000
    ensures var left := LessWarnings(capped, Warnings(flags));
            Overall(es, grounding, flags) == if left < 0.0 then 0.0 else left
  {
    var n := ConfidenceExact(es, grounding, flags, worst, capped);
    var warnings := Warnings(flags);
    var left := k - if warnings == 0 then 0 else if warnings == 1 then 500 else if warnings == 2 then 1000 else 1500;
    assert LessWarnings(capped, warnings) * 10000.0 == left as real;
    assert n == left;
  }

  lemma ThresholdRounded(x: real)
    ensures Round4(x) >= 0.75 <==> x >= 0.74995
  {
    var y := x * 10000.0;
    if y < 7499.5 {
      assert RoundHalfEven(y) <= 7499;
    } else if y < 7500.0 {
      assert y.Floor == 7499;
    } else {
      RoundMonotone(7500.0, y);
    }
  }

  /** When nothing is ungrounded or unreadable, confidence meets 0.75 exactly if the worst
      field confidence is at least 0.74995 after the warnings are taken off. Warnings take off
      at most 0.15, so 0.89995 is enough under any number of warnings, and needed under three. */
  lemma WarningsAloneNeverSinkAGoodExtraction(
    es: seq<ExtractionResult>, flags: seq<RuleFlag>, worst: real)
    requires (forall e :: e in es ==> e.error.None?) && IsWorst(es, worst)
    ensures Overall(es, [], flags) >= 0.75 <==> LessWarnings(worst, Warnings(flags)) >= 0.74995
    ensures worst >= 0.89995 ==> Overall(es, [], flags) >= 0.75
    ensures Warnings(flags) >= 3 ==> (Overall(es, [], flags) >= 0.75 <==> worst >= 0.89995)
  {
    WorstExact(es, worst);
    assert Unrounded(es, [], flags) == LessWarnings(worst, Warnings(flags));
    ThresholdRounded(Unrounded(es, [], flags));
  }

  lemma {:induction false} WarningsExact(flags: seq<RuleFlag>, f: RuleFlag)
    ensures Warnings([]) == 0
    ensures Warnings(flags + [f]) == Warnings(flags) + if f.severity == Warning then 1 else 0
  {
    assert (flags + [f])[..|flags|] == flags;
  }

  /** Any grounding flag caps confidence at 0.4, any unreadable document at 0.5. */
  lemma Caps(es: seq<ExtractionResult>, grounding: seq<RuleFlag>, flags: seq<RuleFlag>)
    ensures grounding != [] ==> Overall(es, grounding, flags) <= 0.4
    ensures AnyUnreadable(es) ==> Overall(es, grounding, flags) <= 0.5
  {
    Round4Exact(4000);
    Round4Exact(5000);
    var u := Unrounded(es, grounding, flags);
    if grounding != [] { Round4Monotone(u, 0.4); }
    if AnyUnreadable(es) { Round4Monotone(u, 0.5); }
  }

  // --- the order of the documents does not matter ---

  lemma {:induction false} ValuesOrigin(es: seq<ExtractionResult>, v: real)
    ensures v in Values(es) <==> exists e :: e in es && e.error.None? && v in e.confidences
  {
    if es != [] {
      var last := |es| - 1;
      ValuesOrigin(es[..last], v);
      assert es == es[..last] + [es[last]];
    }
  }

  lemma MinOrByMembers(s: seq<real>, t: seq<real>, default: real)
    requires forall v :: v in s <==> v in t
    ensures MinOr(s, default) == MinOr(t, default)
  {
    assert s != [] ==> s[0] in s;
    assert t != [] ==> t[0] in t;
    if s != [] {
      assert MinOr(s, default) in t && MinOr(t, default) in s;
    }
  }

  /** Confidence depends on the set of documents, on whether anything is ungrounded, and
      on the number of warnings, not on any order. */
  lemma OverallByMembers(
    es: seq<ExtractionResult>, fs: seq<ExtractionResult>,
    g: seq<RuleFlag>, h: seq<RuleFlag>, flags: seq<RuleFlag>, glags: seq<RuleFlag>)
    requires forall e :: e in es <==> e in fs
    requires g == [] <==> h == []
    requires Warnings(flags) == Warnings(glags)
    ensures Overall(es, g, flags) == Overall(fs, h, glags)
  {
    forall v
      ensures v in Values(es) <==> v in Values(fs)
    {
      ValuesOrigin(es, v);
      ValuesOrigin(fs, v);
    }
    MinOrByMembers(Values(es), Values(fs), 0.3);
  }
}

/** The result does not depend on the order in which the extraction workers finish. */
module Schedules {
  import opened Schemas
  import opened Resilience
  import opened RiskRules
  import opened Nodes
  import opened Machine
  import opened Gatekeeping
  import VR = ValidationRules
  import Confidence
  import Progress

  /** The evaluator and the registries answer by what they are asked, not by when: the
      position of the document or name among the others makes no difference. They may still
      fail, on any attempt, and a registry may answer differently in different passes. */
  ghost predicate Stateless(w: World) {
    && (forall j, d, e :: w.evaluator(j, d, e) == w.evaluator(0, d, e))
    && forall s, i, name :: w.search(s, i, name) == w.search(s, 0, name)
  }

  // --- sums over a schedule ---

  function Sum(order: seq<nat>, f: nat -> nat): nat {
    if order == [] then 0 else Sum(order[..|order| - 1], f) + f(order[|order| - 1])
  }

  lemma {:induction false} SumConcat(a: seq<nat>, b: seq<nat>, f: nat -> nat)
    ensures Sum(a + b, f) == Sum(a, f) + Sum(b, f)
  {
    if b == [] {
      assert a + b == a;
    } else {
      var last := |b| - 1;
      SumConcat(a, b[..last], f);
      assert (a + b)[..|a + b| - 1] == a + b[..last];
    }
  }

  function SumTo(n: nat, f: nat -> nat): nat {
    if n == 0 then 0 else SumTo(n - 1, f) + f(n - 1)
  }

  function Without(order: seq<nat>, p: nat): seq<nat>
    requires p < |order|
  {
    order[..p] + order[p + 1..]
  }

  lemma WithoutLast(order: seq<nat>, n: nat, p: nat)
    requires n > 0 && Schedule(order, n) && p < |order| && order[p] == n - 1
    ensures Schedule(Without(order, p), n - 1)
  {
    var rest := Without(order, p);
    forall k | 0 <= k < |rest|
      ensures rest[k] == if k < p then order[k] else order[k + 1]
    {
    }
    forall i: nat
      ensures i in rest <==> i < n - 1
    {
      if i in rest {
        var k :| 0 <= k < |rest| && rest[k] == i;
        assert i in order;
      }
      if i < n - 1 {
        assert i in order;
        var k :| 0 <= k < |order| && order[k] == i;
        assert rest[if k < p then k else k - 1] == i;
      }
    }
  }

  /** A sum over all tasks is the same for every schedule. */
  lemma {:induction false} SumOfSchedule(order: seq<nat>, n: nat, f: nat -> nat)
    requires Schedule(order, n)
    ensures Sum(order, f) == SumTo(n, f)
    decreases n
  {
    assert order == [] || order[0] in order;
    if n > 0 {
      assert n - 1 in order;
      var p :| 0 <= p < |order| && order[p] == n - 1;
      WithoutLast(order, n, p);
      SumOfSchedule(Without(order, p), n - 1, f);
      assert order == (order[..p] + [order[p]]) + order[p + 1..];
      SumConcat(order[..p] + [order[p]], order[p + 1..], f);
      SumConcat(order[..p], order[p + 1..], f);
      assert (order[..p] + [order[p]])[..p] == order[..p];
    }
  }

  // --- the same documents ---

  ghost predicate SameDocuments(es: seq<ExtractionResult>, fs: seq<ExtractionResult>) {
    forall e :: e in es <==> e in fs
  }

  lemma SchedulesSameDocuments(w: World, inp: Inputs, o1: seq<nat>, o2: seq<nat>, n: nat)
    requires Schedule(o1, n) && Schedule(o2, n)
    ensures SameDocuments(Results(w, inp, o1), Results(w, inp, o2))
  {
    forall e
      ensures e in Results(w, inp, o1) <==> e in Results(w, inp, o2)
    {
      Progress.ResultsMembers(w, inp, o1, e);
      Progress.ResultsMembers(w, inp, o2, e);
      if i :| i in o1 && e == TaskResult(w, inp, i) { assert i in o2; }
      if i :| i in o2 && e == TaskResult(w, inp, i) { assert i in o1; }
    }
  }

  // --- evaluation ---

  function EvaluatorTried(w: World, inp: Inputs, e: ExtractionResult): Tried<seq<RuleFlag>> {
    Retry(ValidatorStep, w.evaluator(0, DocumentById(inp.package.documents, e.id), e),
          inp.settings.maxStepRetries, true)
  }

  /** What the evaluator contributes on one document. */
  function Grounding(w: World, inp: Inputs, e: ExtractionResult): seq<RuleFlag> {
    if e.error.Some? then []
    else
      var t := EvaluatorTried(w, inp, e);
      if t.result.Some? then t.result.value else []
  }

  ghost predicate Evaluable(w: World, inp: Inputs, e: ExtractionResult) {
    e.error.None? ==> EvaluatorTried(w, inp, e).result.Some?
  }

  function AllGrounding(w: World, inp: Inputs, es: seq<ExtractionResult>): seq<RuleFlag> {
    if es == [] then []
    else AllGrounding(w, inp, es[..|es| - 1]) + Grounding(w, inp, es[|es| - 1])
  }

  lemma EvaluatingStateless(w: World, inp: Inputs, es: seq<ExtractionResult>, j: nat)
    requires Stateless(w) && j < |es|
    ensures Evaluating(w, inp, es, j) == EvaluatorTried(w, inp, es[j])
  {
  }

  lemma OneMoreEvaluated(w: World, inp: Inputs, es: seq<ExtractionResult>, j: nat)
    requires Stateless(w) && j < |es|
    ensures var was, now := EvaluateUpTo(w, inp, es, j), EvaluateUpTo(w, inp, es, j + 1);
            && (now.failure.None? <==> was.failure.None? && Evaluable(w, inp, es[j]))
            && (now.failure.None? ==> now.flags == was.flags + Grounding(w, inp, es[j]))
  {
    EvaluatingStateless(w, inp, es, j);
  }

  lemma {:induction false} EvaluationStateless(w: World, inp: Inputs, es: seq<ExtractionResult>, n: nat)
    requires Stateless(w) && n <= |es|
    ensures EvaluateUpTo(w, inp, es, n).failure.None? <==> forall j :: 0 <= j < n ==> Evaluable(w, inp, es[j])
    ensures EvaluateUpTo(w, inp, es, n).failure.None? ==>
              EvaluateUpTo(w, inp, es, n).flags == AllGrounding(w, inp, es[..n])
  {
    if n > 0 {
      EvaluationStateless(w, inp, es, n - 1);
      OneMoreEvaluated(w, inp, es, n - 1);
      assert es[..n][..n - 1] == es[..n - 1];
    }
  }

  lemma EvaluateStateless(w: World, inp: Inputs, es: seq<ExtractionResult>)
    requires Stateless(w)
    ensures Evaluate(w, inp, es).failure.None? <==>
              (inp.settings.evaluatorEnabled ==> forall e :: e in es ==> Evaluable(w, inp, e))
    ensures Evaluate(w, inp, es).failure.None? ==>
              Evaluate(w, inp, es).flags == if inp.settings.evaluatorEnabled then AllGrounding(w, inp, es) else []
  {
    EvaluationStateless(w, inp, es, |es|);
    assert es[..|es|] == es;
  }

  lemma {:induction false} GroundingOrigin(w: World, inp: Inputs, es: seq<ExtractionResult>, f: RuleFlag)
    ensures f in AllGrounding(w, inp, es) <==> exists e :: e in es && f in Grounding(w, inp, e)
  {
    if es != [] {
      var last := |es| - 1;
      GroundingOrigin(w, inp, es[..last], f);
      assert es == es[..last] + [es[last]];
    }
  }

  // --- warnings ---

  /** The warnings on one document. */
  function DocumentWarnings(w: World, inp: Inputs, e: ExtractionResult): nat {
    Confidence.Warnings(VR.DocumentVerdict(w.lib, inp.settings, inp.package.applicant, e).flags)
    + if inp.settings.evaluatorEnabled then Confidence.Warnings(Grounding(w, inp, e)) else 0
  }

  function TaskWarnings(w: World, inp: Inputs): nat -> nat {
    i => DocumentWarnings(w, inp, TaskResult(w, inp, i))
  }

  function FlagsOf(w: World, inp: Inputs, es: seq<ExtractionResult>): seq<RuleFlag> {
    RuleVerdict(w, inp, es).flags + if inp.settings.evaluatorEnabled then AllGrounding(w, inp, es) else []
  }

  lemma WarningsStep(w: World, inp: Inputs, es: seq<ExtractionResult>, e: ExtractionResult)
    ensures Confidence.Warnings(FlagsOf(w, inp, es + [e]))
            == Confidence.Warnings(FlagsOf(w, inp, es)) + DocumentWarnings(w, inp, e)
  {
    assert (es + [e])[..|es|] == es;
    var r, r' := RuleVerdict(w, inp, es).flags, RuleVerdict(w, inp, es + [e]).flags;
    var v := VR.DocumentVerdict(w.lib, inp.settings, inp.package.applicant, e).flags;
    assert r' == r + v;
    Confidence.WarningsConcat(r, v);
    if inp.settings.evaluatorEnabled {
      var g := AllGrounding(w, inp, es);
      assert AllGrounding(w, inp, es + [e]) == g + Grounding(w, inp, e);
      Confidence.WarningsConcat(g, Grounding(w, inp, e));
      Confidence.WarningsConcat(r, g);
      Confidence.WarningsConcat(r', g + Grounding(w, inp, e));
    } else {
      assert r + [] == r && r' + [] == r';
    }
  }

  lemma {:induction false} WarningsSum(w: World, inp: Inputs, order: seq<nat>)
    ensures Confidence.Warnings(FlagsOf(w, inp, Results(w, inp, order))) == Sum(order, TaskWarnings(w, inp))
  {
    if order != [] {
      var front := order[..|order| - 1];
      WarningsSum(w, inp, front);
      WarningsStep(w, inp, Results(w, inp, front), TaskResult(w, inp, order[|order| - 1]));
    }
  }

  // --- the report ---

  lemma FlagsSameMembers(w: World, inp: Inputs, es: seq<ExtractionResult>, fs: seq<ExtractionResult>, f: RuleFlag)
    requires SameDocuments(es, fs)
    ensures f in FlagsOf(w, inp, es) <==> f in FlagsOf(w, inp, fs)
  {
    VR.FlagOrigin(w.lib, inp.settings, inp.package.applicant, es, f);
    VR.FlagOrigin(w.lib, inp.settings, inp.package.applicant, fs, f);
    GroundingOrigin(w, inp, es, f);
    GroundingOrigin(w, inp, fs, f);
  }

  lemma GroundingSameEmptiness(w: World, inp: Inputs, es: seq<ExtractionResult>, fs: seq<ExtractionResult>)
    requires SameDocuments(es, fs)
    ensures AllGrounding(w, inp, es) == [] <==> AllGrounding(w, inp, fs) == []
  {
    var g, h := AllGrounding(w, inp, es), AllGrounding(w, inp, fs);
    if g != [] {
      assert g[0] in g;
      GroundingOrigin(w, inp, es, g[0]);
      GroundingOrigin(w, inp, fs, g[0]);
    }
    if h != [] {
      assert h[0] in h;
      GroundingOrigin(w, inp, es, h[0]);
      GroundingOrigin(w, inp, fs, h[0]);
    }
  }

  /** Two reports that a gate cannot tell apart. */
  ghost predicate Equivalent(r: ValidationReport, s: ValidationReport) {
    && r.confidence == s.confidence
    && forall f :: f in r.flags <==> f in s.flags
  }

  lemma ReportsEquivalent(w: World, inp: Inputs, o1: seq<nat>, o2: seq<nat>, n: nat)
    requires Stateless(w) && Schedule(o1, n) && Schedule(o2, n)
    ensures EvaluatorFailed(w, inp, o1) <==> EvaluatorFailed(w, inp, o2)
    ensures !EvaluatorFailed(w, inp, o1) ==>
              Equivalent(Report(w, inp, Results(w, inp, o1)), Report(w, inp, Results(w, inp, o2)))
  {
    var es, fs := Results(w, inp, o1), Results(w, inp, o2);
    SchedulesSameDocuments(w, inp, o1, o2, n);
    EvaluateStateless(w, inp, es);
    EvaluateStateless(w, inp, fs);
    if !EvaluatorFailed(w, inp, o1) {
      var flags, glags := FlagsOf(w, inp, es), FlagsOf(w, inp, fs);
      WarningsSum(w, inp, o1);
      WarningsSum(w, inp, o2);
      SumOfSchedule(o1, n, TaskWarnings(w, inp));
      SumOfSchedule(o2, n, TaskWarnings(w, inp));
      GroundingSameEmptiness(w, inp, es, fs);
      Confidence.OverallByMembers(es, fs, Evaluate(w, inp, es).flags, Evaluate(w, inp, fs).flags, flags, glags);
      forall f
        ensures f in flags <==> f in glags
      {
        FlagsSameMembers(w, inp, es, fs, f);
      }
    }
  }

  // --- the names ---

  ghost predicate NamesPerson(e: ExtractionResult, name: string) {
    e.error.None? && (e.docType == IdDocument || e.docType == ProofOfAddress) && FullName in e.text && e.text[FullName] == name
  }

  ghost predicate NamesCompany(e: ExtractionResult, name: string) {
    e.error.None? && CompanyName in e.text && e.text[CompanyName] == name
  }

  /** A business declares its company's name. */
  predicate DeclaresCompany(inp: Inputs, name: string) {
    inp.package.customer == Business && inp.package.applicant.companyName == Some(name) && name != ""
  }

  ghost predicate NamesOwner(e: ExtractionResult, name: string) {
    e.error.None? && name != "" && name in e.owners
  }

  lemma {:induction false} OwnersAdded(names: seq<string>, owners: seq<string>, name: string)
    ensures name in AddOwners(names, owners) <==> name in names || (name != "" && name in owners)
  {
    if owners != [] {
      var last := |owners| - 1;
      OwnersAdded(names, owners[..last], name);
      assert owners == owners[..last] + [owners[last]];
    }
  }

  lemma NamesAdded(n: Names, e: ExtractionResult, name: string)
    ensures name in AddNames(n, e).persons <==> name in n.persons || NamesPerson(e, name)
    ensures name in AddNames(n, e).companies <==> name in n.companies || NamesCompany(e, name)
    ensures name in AddNames(n, e).owners <==> name in n.owners || NamesOwner(e, name)
  {
    OwnersAdded(n.owners, e.owners, name);
  }

  /** Who is screened: the applicant and every person, company and owner some readable
      document names, whatever the order of the documents. */
  lemma {:induction false} NamesExact(inp: Inputs, es: seq<ExtractionResult>, name: string)
    ensures name in ScreeningNames(inp, es).persons
            <==> name == inp.package.applicant.fullName || exists e :: e in es && NamesPerson(e, name)
    ensures name in ScreeningNames(inp, es).companies
            <==> DeclaresCompany(inp, name) || exists e :: e in es && NamesCompany(e, name)
    ensures name in ScreeningNames(inp, es).owners <==> exists e :: e in es && NamesOwner(e, name)
  {
    if es != [] {
      var last := |es| - 1;
      NamesExact(inp, es[..last], name);
      NamesAdded(ScreeningNames(inp, es[..last]), es[last], name);
      assert es == es[..last] + [es[last]];
    }
  }

  ghost predicate SameNames(a: seq<string>, b: seq<string>) {
    forall name :: name in a <==> name in b
  }

  lemma NamesSame(inp: Inputs, es: seq<ExtractionResult>, fs: seq<ExtractionResult>)
    requires SameDocuments(es, fs)
    ensures var m, n := ScreeningNames(inp, es), ScreeningNames(inp, fs);
            SameNames(m.persons, n.persons) && SameNames(m.companies, n.companies) && SameNames(m.owners, n.owners)
  {
    forall name
      ensures var m, n := ScreeningNames(inp, es), ScreeningNames(inp, fs);
              && (name in m.persons <==> name in n.persons)
              && (name in m.companies <==> name in n.companies)
              && (name in m.owners <==> name in n.owners)
    {
      NamesExact(inp, es, name);
      NamesExact(inp, fs, name);
    }
  }

  // --- screening ---

  function SearchTried(w: World, inp: Inputs, s: Screening, name: string): Tried<seq<RegistryHit>> {
    Retry(ScreeningStep(RegistryOf(s)), w.search(s, 0, name), inp.settings.maxStepRetries, false)
  }

  /** The registry answers for a name within its budget. */
  predicate Replies(w: World, inp: Inputs, s: Screening, name: string) {
    SearchTried(w, inp, s, name).result.Some?
  }

  /** It answers with hits. */
  predicate Matches(w: World, inp: Inputs, s: Screening, name: string) {
    Replies(w, inp, s, name) && SearchTried(w, inp, s, name).result.value != []
  }

  /** Some name with hits comes before the first one without an answer. */
  ghost predicate Finds(w: World, inp: Inputs, s: Screening, names: seq<string>, n: nat)
    requires n <= |names|
  {
    exists i :: 0 <= i < n && Matches(w, inp, s, names[i]) && forall j :: 0 <= j < i ==> Replies(w, inp, s, names[j])
  }

  lemma SearchingStateless(w: World, inp: Inputs, s: Screening, i: nat, name: string)
    requires Stateless(w)
    ensures Searching(w, inp, s, i, name) == SearchTried(w, inp, s, name)
  {
  }

  lemma {:induction false} AvailableExactly(w: World, inp: Inputs, s: Screening, names: seq<string>, n: nat)
    requires Stateless(w) && n <= |names|
    ensures ScreenUpTo(w, inp, s, names, n).available <==> forall i :: 0 <= i < n ==> Replies(w, inp, s, names[i])
  {
    if n > 0 {
      AvailableExactly(w, inp, s, names, n - 1);
      SearchingStateless(w, inp, s, n - 1, names[n - 1]);
    }
  }

  lemma ScreenedOne(w: World, inp: Inputs, s: Screening, names: seq<string>, n: nat)
    requires Stateless(w) && n < |names|
    ensures var was, now := ScreenUpTo(w, inp, s, names, n), ScreenUpTo(w, inp, s, names, n + 1);
            now.hits != [] <==> was.hits != [] || (was.available && Matches(w, inp, s, names[n]))
  {
    SearchingStateless(w, inp, s, n, names[n]);
  }

  /** A pass finds something if and only if a name with hits comes before the first one that
      the registry does not answer for. */
  lemma {:induction false} PassFindsExactly(w: World, inp: Inputs, s: Screening, names: seq<string>, n: nat)
    requires Stateless(w) && n <= |names|
    ensures ScreenUpTo(w, inp, s, names, n).hits != [] <==> Finds(w, inp, s, names, n)
  {
    if n > 0 {
      PassFindsExactly(w, inp, s, names, n - 1);
      ScreenedOne(w, inp, s, names, n - 1);
      AvailableExactly(w, inp, s, names, n - 1);
      FindsOneMore(w, inp, s, names, n - 1);
    }
  }

  lemma FindsOneMore(w: World, inp: Inputs, s: Screening, names: seq<string>, n: nat)
    requires n < |names|
    ensures Finds(w, inp, s, names, n + 1) <==>
              || Finds(w, inp, s, names, n)
              || (Matches(w, inp, s, names[n]) && forall j :: 0 <= j < n ==> Replies(w, inp, s, names[j]))
  {
  }

  /** A pass answers for the same names in either order. */
  lemma ScreensAgree(w: World, inp: Inputs, s: Screening, a: seq<string>, b: seq<string>)
    requires Stateless(w) && SameNames(a, b)
    ensures Screen(w, inp, s, a).available <==> Screen(w, inp, s, b).available
  {
    AvailableExactly(w, inp, s, a, |a|);
    AvailableExactly(w, inp, s, b, |b|);
    assert forall i :: 0 <= i < |a| ==> a[i] in b;
    assert forall i :: 0 <= i < |b| ==> b[i] in a;
  }

  /** No name has hits while another gets no answer: in particular when the registry answers
      for all of them, and when it answers for none. */
  ghost predicate Steady(w: World, inp: Inputs, s: Screening, names: seq<string>) {
    forall a, b :: a in names && b in names && Matches(w, inp, s, a) ==> Replies(w, inp, s, b)
  }

  /** A steady pass finds something in every order of the names or in none. */
  lemma SteadyFindsAlike(w: World, inp: Inputs, s: Screening, a: seq<string>, b: seq<string>)
    requires SameNames(a, b) && Steady(w, inp, s, a)
    ensures Finds(w, inp, s, a, |a|) <==> Finds(w, inp, s, b, |b|)
  {
    SteadyFinds(w, inp, s, a);
    SteadyFinds(w, inp, s, b);
  }

  lemma SteadyFinds(w: World, inp: Inputs, s: Screening, names: seq<string>)
    requires Steady(w, inp, s, names)
    ensures Finds(w, inp, s, names, |names|) <==> exists name :: name in names && Matches(w, inp, s, name)
  {
    if name :| name in names && Matches(w, inp, s, name) {
      var i :| 0 <= i < |names| && names[i] == name;
      assert forall j :: 0 <= j < i ==> names[j] in names;
      assert Matches(w, inp, s, names[i]);
    }
  }

  /** The same registries are unavailable. */
  lemma ScreeningsAgree(w: World, inp: Inputs, m: Names, n: Names)
    requires Stateless(w)
    requires SameNames(m.persons, n.persons) && SameNames(m.companies, n.companies) && SameNames(m.owners, n.owners)
    ensures Unavailable(ScreenAll(w, inp, m)) == Unavailable(ScreenAll(w, inp, n))
  {
    assert SameNames(m.persons + m.companies, n.persons + n.companies);
    ScreensAgree(w, inp, SanctionsMain, m.persons + m.companies, n.persons + n.companies);
    ScreensAgree(w, inp, PepMain, m.persons, n.persons);
    ScreensAgree(w, inp, SanctionsOwners, m.owners, n.owners);
    ScreensAgree(w, inp, PepOwners, m.owners, n.owners);
  }

  ghost predicate FindsSanctions(w: World, inp: Inputs, n: Names) {
    var names := n.persons + n.companies;
    Finds(w, inp, SanctionsMain, names, |names|)
  }

  ghost predicate FindsPeps(w: World, inp: Inputs, n: Names) {
    Finds(w, inp, PepMain, n.persons, |n.persons|)
  }

  ghost predicate FindsOwners(w: World, inp: Inputs, n: Names) {
    Finds(w, inp, SanctionsOwners, n.owners, |n.owners|) || Finds(w, inp, PepOwners, n.owners, |n.owners|)
  }

  /** Two lists of names lead to hits of the same kinds. */
  ghost predicate FindAlike(w: World, inp: Inputs, m: Names, n: Names) {
    && (FindsSanctions(w, inp, m) <==> FindsSanctions(w, inp, n))
    && (FindsPeps(w, inp, m) <==> FindsPeps(w, inp, n))
    && (FindsOwners(w, inp, m) <==> FindsOwners(w, inp, n))
  }

  ghost predicate AllSteady(w: World, inp: Inputs, n: Names) {
    && Steady(w, inp, SanctionsMain, n.persons + n.companies)
    && Steady(w, inp, PepMain, n.persons)
    && Steady(w, inp, SanctionsOwners, n.owners)
    && Steady(w, inp, PepOwners, n.owners)
  }

  lemma AllSteadyFindAlike(w: World, inp: Inputs, m: Names, n: Names)
    requires AllSteady(w, inp, m)
    requires SameNames(m.persons, n.persons) && SameNames(m.companies, n.companies) && SameNames(m.owners, n.owners)
    ensures FindAlike(w, inp, m, n)
  {
    assert SameNames(m.persons + m.companies, n.persons + n.companies);
    SteadyFindsAlike(w, inp, SanctionsMain, m.persons + m.companies, n.persons + n.companies);
    SteadyFindsAlike(w, inp, PepMain, m.persons, n.persons);
    SteadyFindsAlike(w, inp, SanctionsOwners, m.owners, n.owners);
    SteadyFindsAlike(w, inp, PepOwners, m.owners, n.owners);
  }

  lemma HitsExactly(w: World, inp: Inputs, n: Names)
    requires Stateless(w)
    ensures var s := ScreenAll(w, inp, n);
            && (s.main.hits != [] <==> FindsSanctions(w, inp, n))
            && (s.pep.hits != [] <==> FindsPeps(w, inp, n))
            && (s.owners.hits + s.ownersPep.hits != [] <==> FindsOwners(w, inp, n))
  {
    PassFindsExactly(w, inp, SanctionsMain, n.persons + n.companies, |n.persons + n.companies|);
    PassFindsExactly(w, inp, PepMain, n.persons, |n.persons|);
    PassFindsExactly(w, inp, SanctionsOwners, n.owners, |n.owners|);
    PassFindsExactly(w, inp, PepOwners, n.owners, |n.owners|);
  }

  // --- the decision ---

  const HIT_RULES := {SANCTIONS_HIT, PEP_MATCH, UBO_SANCTIONS_OR_PEP}

  /** Hits of the same kinds. */
  ghost predicate SameHits(d: Evidence, e: Evidence) {
    && (d.sanctionsHits == [] <==> e.sanctionsHits == [])
    && (d.pepHits == [] <==> e.pepHits == [])
    && (d.ownerHits == [] <==> e.ownerHits == [])
  }

  /** Evidence that differs at most in its hits. */
  ghost predicate SameButHits(d: Evidence, e: Evidence) {
    && d.customer == e.customer && d.volume == e.volume && d.confidence == e.confidence
    && d.unavailable == e.unavailable
    && forall f :: f in d.flags <==> f in e.flags
  }

  lemma DueAgree(settings: Settings, d: Evidence, e: Evidence, rule: RuleId)
    requires SameButHits(d, e) && rule !in HIT_RULES
    ensures Due(settings, d, rule) <==> Due(settings, e, rule)
  {
  }

  /** The hit rules tell which kinds of hits there are. */
  lemma HitRulesTell(settings: Settings, d: Evidence, e: Evidence)
    ensures SameHits(d, e) <==> forall rule :: rule in HIT_RULES ==> (Due(settings, d, rule) <==> Due(settings, e, rule))
  {
    assert Due(settings, d, SANCTIONS_HIT) <==> d.sanctionsHits != [];
    assert Due(settings, d, PEP_MATCH) <==> d.pepHits != [];
    assert Due(settings, d, UBO_SANCTIONS_OR_PEP) <==> d.ownerHits != [];
    assert {SANCTIONS_HIT, PEP_MATCH, UBO_SANCTIONS_OR_PEP} == HIT_RULES;
  }

  lemma SameCodesByDue(settings: Settings, d: Evidence, e: Evidence)
    ensures SortedCodes(Triggers(settings, d)) == SortedCodes(Triggers(settings, e))
            <==> forall rule :: Due(settings, d, rule) <==> Due(settings, e, rule)
  {
    var t, u := Triggers(settings, d), Triggers(settings, e);
    forall rule
      ensures rule in SortedCodes(t) <==> Due(settings, d, rule)
      ensures rule in SortedCodes(u) <==> Due(settings, e, rule)
      ensures Triggered(t, rule) <==> Due(settings, d, rule)
      ensures Triggered(u, rule) <==> Due(settings, e, rule)
    {
      TriggersExact(settings, d, rule);
      TriggersExact(settings, e, rule);
      SortedCodesExact(t, rule);
      SortedCodesExact(u, rule);
    }
    if forall rule :: Due(settings, d, rule) <==> Due(settings, e, rule) {
      PickByRules(ALPHABETICAL, t, u);
    }
  }

  /** On evidence that differs at most in its hits the codes are the same if and only if the
      kinds of hits are. */
  lemma CodesTellHits(settings: Settings, d: Evidence, e: Evidence)
    requires SameButHits(d, e)
    ensures SortedCodes(Triggers(settings, d)) == SortedCodes(Triggers(settings, e)) <==> SameHits(d, e)
  {
    SameCodesByDue(settings, d, e);
    HitRulesTell(settings, d, e);
    forall rule | rule !in HIT_RULES
      ensures Due(settings, d, rule) <==> Due(settings, e, rule)
    {
      DueAgree(settings, d, e, rule);
    }
  }

  /** The level, and whether anything is triggered, never differ: with an outage the level is
      HIGH in any case, and without one the hits agree. */
  lemma LevelsAgree(settings: Settings, d: Evidence, e: Evidence)
    requires SameButHits(d, e) && (d.unavailable == [] ==> SameHits(d, e))
    ensures var t, u := Triggers(settings, d), Triggers(settings, e);
            LevelOf(t) == LevelOf(u) && (t == [] <==> u == [])
  {
    if d.unavailable == [] {
      var t, u := Triggers(settings, d), Triggers(settings, e);
      HitRulesTell(settings, d, e);
      forall rule
        ensures Triggered(t, rule) <==> Triggered(u, rule)
      {
        TriggersExact(settings, d, rule);
        TriggersExact(settings, e, rule);
        if rule !in HIT_RULES { DueAgree(settings, d, e, rule); }
      }
      LevelByRules(t, u);
    } else {
      OutageIsHigh(settings, d);
      OutageIsHigh(settings, e);
    }
  }

  lemma OutageIsHigh(settings: Settings, e: Evidence)
    requires e.unavailable != []
    ensures Triggers(settings, e) != [] && LevelOf(Triggers(settings, e)) == High
  {
    TriggersExact(settings, e, REGISTRY_UNAVAILABLE);
    assert Due(settings, e, REGISTRY_UNAVAILABLE);
    LevelExact(Triggers(settings, e));
    NothingTriggered(Triggers(settings, e));
  }

  lemma TroubleAgrees(w: World, inp: Inputs, o1: seq<nat>, o2: seq<nat>)
    requires Stateless(w) && Settled(w, inp, o1) && Settled(w, inp, o2)
    ensures Troubled(w, inp, o1) <==> Troubled(w, inp, o2)
    ensures Assessed(w, inp, o1) <==> Assessed(w, inp, o2)
  {
    if Routed(w, inp) && Complete(w, inp) {
      ReportsEquivalent(w, inp, o1, o2, |Tasks(w, inp)|);
      assert AnyFailed(w, inp, o1) <==> AnyFailed(w, inp, o2) by {
        if i :| i in o1 && TaskFailed(w, inp, i) { assert i in o2; }
        if i :| i in o2 && TaskFailed(w, inp, i) { assert i in o1; }
      }
    }
  }

  function NamesFor(w: World, inp: Inputs, order: seq<nat>): Names {
    ScreeningNames(inp, Results(w, inp, order))
  }

  lemma NamesForSame(w: World, inp: Inputs, o1: seq<nat>, o2: seq<nat>)
    requires Settled(w, inp, o1) && Settled(w, inp, o2) && Routed(w, inp) && Complete(w, inp)
    ensures var m, n := NamesFor(w, inp, o1), NamesFor(w, inp, o2);
            SameNames(m.persons, n.persons) && SameNames(m.companies, n.companies) && SameNames(m.owners, n.owners)
  {
    SchedulesSameDocuments(w, inp, o1, o2, |Tasks(w, inp)|);
    NamesSame(inp, Results(w, inp, o1), Results(w, inp, o2));
  }

  /** When every registry answers for every name, every pass is steady. */
  lemma AvailableIsSteady(w: World, inp: Inputs, n: Names)
    requires Stateless(w) && Unavailable(ScreenAll(w, inp, n)) == []
    ensures AllSteady(w, inp, n)
  {
    AvailablePassIsSteady(w, inp, SanctionsMain, n.persons + n.companies);
    AvailablePassIsSteady(w, inp, PepMain, n.persons);
    AvailablePassIsSteady(w, inp, SanctionsOwners, n.owners);
    AvailablePassIsSteady(w, inp, PepOwners, n.owners);
  }

  lemma AvailablePassIsSteady(w: World, inp: Inputs, s: Screening, names: seq<string>)
    requires Stateless(w)
    ensures Screen(w, inp, s, names).available ==> Steady(w, inp, s, names)
  {
    AvailableExactly(w, inp, s, names, |names|);
  }

  lemma EvidenceAgrees(w: World, inp: Inputs, o1: seq<nat>, o2: seq<nat>)
    requires Stateless(w) && Settled(w, inp, o1) && Settled(w, inp, o2)
    requires Assessed(w, inp, o1) && Assessed(w, inp, o2)
    ensures var d, e := EvidenceFor(w, inp, o1), EvidenceFor(w, inp, o2);
            && SameButHits(d, e)
            && (SameHits(d, e) <==> FindAlike(w, inp, NamesFor(w, inp, o1), NamesFor(w, inp, o2)))
            && (d.unavailable == [] ==> SameHits(d, e))
  {
    var m, n := NamesFor(w, inp, o1), NamesFor(w, inp, o2);
    ReportsEquivalent(w, inp, o1, o2, |Tasks(w, inp)|);
    NamesForSame(w, inp, o1, o2);
    ScreeningsAgree(w, inp, m, n);
    HitsExactly(w, inp, m);
    HitsExactly(w, inp, n);
    if EvidenceFor(w, inp, o1).unavailable == [] {
      AvailableIsSteady(w, inp, m);
      AllSteadyFindAlike(w, inp, m, n);
    }
  }

  /** Two gates that see the same, save for the triggers, decide alike, and give the same
      codes if and only if the same rules are triggered. */
  lemma GatesAgree(
    completeness: Option<RuleFlag>, degraded: bool,
    f1: seq<RuleFlag>, t1: seq<RuleFlag>, f2: seq<RuleFlag>, t2: seq<RuleFlag>)
    requires HasExpired(f1) <==> HasExpired(f2)
    requires t1 == [] <==> t2 == []
    requires completeness.Some? ==> t1 == []
    ensures var d, e := DecideGate(completeness, f1, t1, degraded), DecideGate(completeness, f2, t2, degraded);
            d.outcome == e.outcome && (d.codes == e.codes <==> SortedCodes(t1) == SortedCodes(t2))
  {
    var own := if degraded then [DEGRADED_TO_MANUAL] else [];
    var a, b := SortedCodes(t1), SortedCodes(t2);
    assert a + own == b + own ==> (a + own)[..|a + own| - |own|] == (b + own)[..|b + own| - |own|];
    assert (a + own)[..|a + own| - |own|] == a && (b + own)[..|b + own| - |own|] == b;
  }

  lemma SystemDecidedBy(w: World, inp: Inputs, order: seq<nat>)
    requires Settled(w, inp, order)
    ensures SystemDecided(w, inp, order) == DecideGate(
              AtTheGate(w, inp, order).completeness,
              if Assessed(w, inp, order) then AllFlags(w, inp, Results(w, inp, order)) else [],
              if Assessed(w, inp, order) then Triggers(inp.settings, EvidenceFor(w, inp, order)) else [],
              Troubled(w, inp, order))
    ensures AtTheGate(w, inp, order).completeness.Some? ==> !Assessed(w, inp, order)
  {
    GateState(w, inp, order);
  }

  lemma CompletenessAgrees(w: World, inp: Inputs, o1: seq<nat>, o2: seq<nat>)
    requires Settled(w, inp, o1) && Settled(w, inp, o2)
    ensures AtTheGate(w, inp, o1).completeness == AtTheGate(w, inp, o2).completeness
  {
    CompletenessAtGate(w, inp, o1);
    CompletenessAtGate(w, inp, o2);
  }

  lemma CompletenessAtGate(w: World, inp: Inputs, order: seq<nat>)
    requires Settled(w, inp, order)
    ensures AtTheGate(w, inp, order).completeness
            == if Routed(w, inp) then Completeness(inp, Classified(w, inp)) else None
  {
    RouterChannels(w, inp);
    if Routed(w, inp) && Complete(w, inp) {
      ValidatedChannels(w, inp, order);
    } else if Routed(w, inp) {
      GatheredChannels(w, inp, []);
    }
  }

  /** The codes of two orders can be compared by what their passes find. */
  ghost predicate SameFindings(w: World, inp: Inputs, o1: seq<nat>, o2: seq<nat>) {
    Assessed(w, inp, o1) ==> FindAlike(w, inp, NamesFor(w, inp, o1), NamesFor(w, inp, o2))
  }

  lemma ExpiryAgrees(w: World, inp: Inputs, o1: seq<nat>, o2: seq<nat>)
    requires Stateless(w) && Settled(w, inp, o1) && Settled(w, inp, o2)
    requires Assessed(w, inp, o1) && Assessed(w, inp, o2)
    ensures HasExpired(AllFlags(w, inp, Results(w, inp, o1))) <==> HasExpired(AllFlags(w, inp, Results(w, inp, o2)))
  {
    ReportsEquivalent(w, inp, o1, o2, |Tasks(w, inp)|);
    var r1, r2 := Report(w, inp, Results(w, inp, o1)), Report(w, inp, Results(w, inp, o2));
    assert HasExpired(r1.flags) <==> HasExpired(r2.flags);
  }

  lemma DecisionsAgree(w: World, inp: Inputs, o1: seq<nat>, o2: seq<nat>)
    requires Stateless(w) && Settled(w, inp, o1) && Settled(w, inp, o2)
    ensures SystemDecided(w, inp, o1).outcome == SystemDecided(w, inp, o2).outcome
    ensures SystemDecided(w, inp, o1).codes == SystemDecided(w, inp, o2).codes <==> SameFindings(w, inp, o1, o2)
  {
    TroubleAgrees(w, inp, o1, o2);
    CompletenessAgrees(w, inp, o1, o2);
    SystemDecidedBy(w, inp, o1);
    SystemDecidedBy(w, inp, o2);
    if Assessed(w, inp, o1) {
      AssessedDecisionsAgree(w, inp, o1, o2);
    }
  }

  lemma AssessedDecisionsAgree(w: World, inp: Inputs, o1: seq<nat>, o2: seq<nat>)
    requires Stateless(w) && Settled(w, inp, o1) && Settled(w, inp, o2)
    requires Assessed(w, inp, o1) && Assessed(w, inp, o2)
    ensures SystemDecided(w, inp, o1).outcome == SystemDecided(w, inp, o2).outcome
    ensures SystemDecided(w, inp, o1).codes == SystemDecided(w, inp, o2).codes <==> SameFindings(w, inp, o1, o2)
  {
    var d, e := EvidenceFor(w, inp, o1), EvidenceFor(w, inp, o2);
    TroubleAgrees(w, inp, o1, o2);
    CompletenessAgrees(w, inp, o1, o2);
    SystemDecidedBy(w, inp, o1);
    SystemDecidedBy(w, inp, o2);
    EvidenceAgrees(w, inp, o1, o2);
    LevelsAgree(inp.settings, d, e);
    CodesTellHits(inp.settings, d, e);
    ExpiryAgrees(w, inp, o1, o2);
    GatesAgree(AtTheGate(w, inp, o1).completeness, Troubled(w, inp, o1),
      AllFlags(w, inp, Results(w, inp, o1)), Triggers(inp.settings, d),
      AllFlags(w, inp, Results(w, inp, o2)), Triggers(inp.settings, e));
  }

  function LevelAt(c: Config): Option<RiskLevel> {
    if c.st.risk.Some? then Some(c.st.risk.value.level) else None
  }

  function ConfidenceAt(c: Config): Option<real> {
    if c.st.validation.Some? then Some(c.st.validation.value.confidence) else None
  }

  lemma ReadingsAgree(w: World, inp: Inputs, o1: seq<nat>, o2: seq<nat>)
    requires Stateless(w) && Settled(w, inp, o1) && Settled(w, inp, o2)
    ensures var s, t := AtTheGate(w, inp, o1), AtTheGate(w, inp, o2);
            && (s.validation.Some? <==> t.validation.Some?)
            && (s.risk.Some? <==> t.risk.Some?)
            && (s.validation.Some? ==> s.validation.value.confidence == t.validation.value.confidence)
            && (s.risk.Some? ==> s.risk.value.level == t.risk.value.level)
  {
    TroubleAgrees(w, inp, o1, o2);
    GateState(w, inp, o1);
    GateState(w, inp, o2);
    if Assessed(w, inp, o1) {
      EvidenceAgrees(w, inp, o1, o2);
      LevelsAgree(inp.settings, EvidenceFor(w, inp, o1), EvidenceFor(w, inp, o2));
    }
  }

  /** Two runs on the same inputs with the same answers, whose workers finished in any two
      orders: the system decides alike, with the same risk level and confidence, even if
      registries fail. The reason codes are the same if and only if the passes over the
      registries find hits of the same kinds, that is, if in both orders or in neither a name
      with hits comes before the first one without an answer. */
  lemma ScheduleIndependent(w: World, inp: Inputs, first: seq<Choice>, second: seq<Choice>)
    requires Stateless(w)
    requires Exec(w, inp, first).Some? && Exec(w, inp, second).Some?
    requires DecidedByNow(Exec(w, inp, first).value) && DecidedByNow(Exec(w, inp, second).value)
    ensures var c, d := Exec(w, inp, first).value, Exec(w, inp, second).value;
            var one, two := SystemDecided(w, inp, c.finished), SystemDecided(w, inp, d.finished);
            && ClosingOrSystem(c, one) && ClosingOrSystem(d, two)
            && one.outcome == two.outcome
            && LevelAt(c) == LevelAt(d)
            && ConfidenceAt(c) == ConfidenceAt(d)
            && (one.codes == two.codes <==> SameFindings(w, inp, c.finished, d.finished))
  {
    RunsKeepInv(w, inp, first);
    RunsKeepInv(w, inp, second);
    var c, d := Exec(w, inp, first).value, Exec(w, inp, second).value;
    RunSettled(w, inp, c);
    RunSettled(w, inp, d);
    StateAfterGate(w, inp, c);
    StateAfterGate(w, inp, d);
    DecisionsAgree(w, inp, c.finished, d.finished);
    ReadingsAgree(w, inp, c.finished, d.finished);
  }

  /** So the codes do not depend on the order as long as in no pass one name has hits while
      another gets no answer; a registry that is down for every name does no harm. */
  lemma SteadyCodes(w: World, inp: Inputs, first: seq<Choice>, second: seq<Choice>)
    requires Stateless(w)
    requires Exec(w, inp, first).Some? && Exec(w, inp, second).Some?
    requires DecidedByNow(Exec(w, inp, first).value) && DecidedByNow(Exec(w, inp, second).value)
    requires AllSteady(w, inp, NamesFor(w, inp, Exec(w, inp, first).value.finished))
    ensures SystemDecided(w, inp, Exec(w, inp, first).value.finished).codes
            == SystemDecided(w, inp, Exec(w, inp, second).value.finished).codes
  {
    RunsKeepInv(w, inp, first);
    RunsKeepInv(w, inp, second);
    var o1, o2 := Exec(w, inp, first).value.finished, Exec(w, inp, second).value.finished;
    RunSettled(w, inp, Exec(w, inp, first).value);
    RunSettled(w, inp, Exec(w, inp, second).value);
    DecisionsAgree(w, inp, o1, o2);
    SteadyFindings(w, inp, o1, o2);
  }

  lemma SteadyFindings(w: World, inp: Inputs, o1: seq<nat>, o2: seq<nat>)
    requires Settled(w, inp, o1) && Settled(w, inp, o2) && AllSteady(w, inp, NamesFor(w, inp, o1))
    ensures SameFindings(w, inp, o1, o2)
  {
    if Assessed(w, inp, o1) {
      NamesForSame(w, inp, o1, o2);
      AllSteadyFindAlike(w, inp, NamesFor(w, inp, o1), NamesFor(w, inp, o2));
    }
  }
}

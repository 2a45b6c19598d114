/** Concrete runs in which the program does not do what one might expect of it: the codes
    depend on the order of the workers, and a run raises. */
module Witnesses {
  import opened Schemas
  import opened Text
  import opened Dates
  import opened Resilience
  import opened Services
  import opened GlitchMarkers
  import opened Nodes
  import opened Machine
  import opened Gatekeeping
  import opened Schedules
  import Progress
  import ValidationRules

  const SETTINGS := Settings(0, 0.0, 1.0, 1.0, 0.0, 0.0, 0.0, Date(2026, 1, 1), false)

  // --- two declarations of owners, one name sanctioned, one without an answer ---

  const OWNERS_CASE := Inputs("owners",
    Package(Business, Applicant("Ann", None, "", None, None, 0.0),
      [InputDocument("r", ""), InputDocument("a", ""), InputDocument("b", "")]),
    SETTINGS)

  const OWNERS_ANSWER: seq<Classification> := [
    Classification("r", BusinessRegistration, 1.0),
    Classification("a", UboDeclaration, 1.0),
    Classification("b", UboDeclaration, 1.0)]

  const HIT := RegistryHit(Sanctions, "A", 1.0, "SDN-1")

  function OwnersOf(i: nat): seq<string> {
    if i == 1 then ["A"] else if i == 2 then ["B"] else []
  }

  function Listed(name: string): Reply<seq<RegistryHit>> {
    if name == "A" then Answer([HIT]) else if name == "B" then Raised("ConnectionError", "") else Answer([])
  }

  /** The first declaration names A, who is sanctioned; the second names B, for whom the
      registries give no answer. */
  function OwnersWorld(lib: Library): World {
    World(
      lib,
      k => Answer(OWNERS_ANSWER),
      i => k => Answer(Extracted(map[], OwnersOf(i), [], None)),
      (j, d, e) => k => Answer([]),
      (s, i, name) => k => Listed(name),
      k => Answer(""))
  }

  lemma OwnersStateless(lib: Library)
    ensures Stateless(OwnersWorld(lib))
  {
  }

  lemma OwnersRouting(lib: Library)
    ensures Routing(OwnersWorld(lib), OWNERS_CASE).result == Some(OWNERS_ANSWER)
  {
    var w := OwnersWorld(lib);
    assert w.router(1) == Answer(OWNERS_ANSWER);
  }

  lemma KnownAll(front: seq<ClassifiedDocument>, last: ClassifiedDocument)
    requires last.docType != UnknownType
    ensures Known(front + [last]) == Known(front) + [last]
  {
    assert (front + [last])[..|front|] == front;
  }

  const OWNERS_TASKS := [
    ClassifiedDocument("r", BusinessRegistration, 1.0),
    ClassifiedDocument("a", UboDeclaration, 1.0),
    ClassifiedDocument("b", UboDeclaration, 1.0)]

  lemma OwnersClassified(lib: Library)
    ensures Classified(OwnersWorld(lib), OWNERS_CASE) == OWNERS_TASKS
  {
    OwnersRouting(lib);
    assert Lookup(OWNERS_ANSWER, "b") == Some(OWNERS_ANSWER[2]);
    assert Lookup(OWNERS_ANSWER[..2], "a") == Some(OWNERS_ANSWER[1]);
    assert Lookup(OWNERS_ANSWER, "a") == Some(OWNERS_ANSWER[1]);
    assert Lookup(OWNERS_ANSWER[..2][..1], "r") == Some(OWNERS_ANSWER[0]);
    assert Lookup(OWNERS_ANSWER, "r") == Some(OWNERS_ANSWER[0]);
  }

  lemma OwnersTasks(lib: Library)
    ensures Tasks(OwnersWorld(lib), OWNERS_CASE) == OWNERS_TASKS
    ensures Complete(OwnersWorld(lib), OWNERS_CASE)
  {
    OwnersClassified(lib);
    var t := OWNERS_TASKS;
    KnownAll([], t[0]);
    KnownAll([t[0]], t[1]);
    KnownAll([t[0], t[1]], t[2]);
    assert [] + [t[0]] == [t[0]] && [t[0]] + [t[1]] == [t[0], t[1]] && [t[0], t[1]] + [t[2]] == t;
    assert t[0] in t && t[1] in t;
  }

  lemma OwnersResult(lib: Library, i: nat)
    requires i < 3
    ensures TaskResult(OwnersWorld(lib), OWNERS_CASE, i)
            == ExtractionResult(OWNERS_TASKS[i].id, OWNERS_TASKS[i].docType, map[], OwnersOf(i), [], None)
  {
    OwnersTasks(lib);
    assert OwnersWorld(lib).extractor(i)(1) == Answer(Extracted(map[], OwnersOf(i), [], None));
  }

  lemma OwnersResults(lib: Library, order: seq<nat>, i: nat)
    requires i < 3
    ensures Results(OwnersWorld(lib), OWNERS_CASE, order + [i])
            == Results(OwnersWorld(lib), OWNERS_CASE, order) + [TaskResult(OwnersWorld(lib), OWNERS_CASE, i)]
  {
    assert (order + [i])[..|order|] == order;
  }

  function OwnersNamed(lib: Library, order: seq<nat>): seq<string> {
    NamesFor(OwnersWorld(lib), OWNERS_CASE, order).owners
  }

  lemma OneMoreNamed(lib: Library, order: seq<nat>, i: nat)
    requires i < 3
    ensures OwnersNamed(lib, order + [i]) == AddOwners(OwnersNamed(lib, order), OwnersOf(i))
  {
    var w := OwnersWorld(lib);
    OwnersResult(lib, i);
    OwnersResults(lib, order, i);
    var es, e := Results(w, OWNERS_CASE, order), TaskResult(w, OWNERS_CASE, i);
    assert (es + [e])[..|es|] == es;
  }

  lemma AddOwner(names: seq<string>, owner: string)
    requires owner != "" && owner !in names
    ensures AddOwners(names, [owner]) == names + [owner]
    ensures AddOwners(names, []) == names
  {
    assert [owner][..0] == [];
  }

  /** The owners come in the order in which the declarations are extracted. */
  lemma OwnersInOrder(lib: Library, i: nat, j: nat)
    requires (i == 1 && j == 2) || (i == 2 && j == 1)
    ensures OwnersNamed(lib, [0, i, j]) == OwnersOf(i) + OwnersOf(j)
  {
    OneMoreNamed(lib, [], 0);
    OneMoreNamed(lib, [0], i);
    OneMoreNamed(lib, [0, i], j);
    assert [] + [0] == [0] && [0] + [i] == [0, i] && [0, i] + [j] == [0, i, j];
    AddOwner([], OwnersOf(i)[0]);
    AddOwner(OwnersOf(i), OwnersOf(j)[0]);
  }

  lemma OwnersReplies(lib: Library, s: Screening)
    ensures Matches(OwnersWorld(lib), OWNERS_CASE, s, "A")
    ensures !Replies(OwnersWorld(lib), OWNERS_CASE, s, "B")
  {
    var w := OwnersWorld(lib);
    assert w.search(s, 0, "A")(1) == Answer([HIT]);
    assert w.search(s, 0, "B")(1).Raised?;
  }

  /** The sanctioned owner is found in one order and not in the other. */
  lemma OwnersFound(lib: Library, names: seq<string>)
    ensures names == ["A", "B"] ==> Finds(OwnersWorld(lib), OWNERS_CASE, SanctionsOwners, names, |names|)
    ensures names == ["B", "A"] ==> forall s :: !Finds(OwnersWorld(lib), OWNERS_CASE, s, names, |names|)
  {
    OwnersReplies(lib, SanctionsOwners);
    if names == ["A", "B"] {
      assert Matches(OwnersWorld(lib), OWNERS_CASE, SanctionsOwners, names[0]);
    }
    if names == ["B", "A"] {
      forall s
        ensures !Finds(OwnersWorld(lib), OWNERS_CASE, s, names, |names|)
      {
        OwnersReplies(lib, s);
        assert names[0] == "B" && names[1] == "A";
      }
    }
  }

  lemma NobodyRaises(lib: Library, order: seq<nat>)
    requires Schedule(order, 3)
    ensures !ValidatorCrashes(OwnersWorld(lib), OWNERS_CASE, order)
  {
    OwnersTasks(lib);
    Progress.CrashByTask(OwnersWorld(lib), OWNERS_CASE, order);
    forall i: nat | i < 3
      ensures !ValidationRules.Raises(lib, TaskResult(OwnersWorld(lib), OWNERS_CASE, i))
    {
      OwnersResult(lib, i);
    }
  }

  /** The run in this order, up to the reviewer. */
  lemma OwnersRun(lib: Library, order: seq<nat>) returns (choices: seq<Choice>)
    requires Schedule(order, 3)
    ensures Exec(OwnersWorld(lib), OWNERS_CASE, choices).Some?
    ensures var c := Exec(OwnersWorld(lib), OWNERS_CASE, choices).value; c.finished == order && DecidedByNow(c)
  {
    var w := OwnersWorld(lib);
    OwnersTasks(lib);
    OwnersRouting(lib);
    NobodyRaises(lib, order);
    choices := Progress.EveryScheduleRuns(w, OWNERS_CASE, order);
    RunsKeepInv(w, OWNERS_CASE, choices);
  }

  lemma OwnersFoundOnce(lib: Library)
    ensures !SameFindings(OwnersWorld(lib), OWNERS_CASE, [0, 1, 2], [0, 2, 1])
  {
    OwnersInOrder(lib, 1, 2);
    OwnersInOrder(lib, 2, 1);
    OwnersFound(lib, OwnersNamed(lib, [0, 1, 2]));
    OwnersFound(lib, OwnersNamed(lib, [0, 2, 1]));
    OwnersRouting(lib);
    OwnersTasks(lib);
  }

  lemma OrdersDiffer(lib: Library)
    requires Schedule([0, 1, 2], 3) && Schedule([0, 2, 1], 3)
    ensures SystemDecided(OwnersWorld(lib), OWNERS_CASE, [0, 1, 2]).codes
            != SystemDecided(OwnersWorld(lib), OWNERS_CASE, [0, 2, 1]).codes
  {
    OwnersStateless(lib);
    OwnersTasks(lib);
    NobodyRaises(lib, [0, 1, 2]);
    NobodyRaises(lib, [0, 2, 1]);
    OwnersFoundOnce(lib);
    DecisionsAgree(OwnersWorld(lib), OWNERS_CASE, [0, 1, 2], [0, 2, 1]);
  }

  lemma TwoSchedules()
    ensures Schedule([0, 1, 2], 3) && Schedule([0, 2, 1], 3)
  {
    var a, b := [0, 1, 2], [0, 2, 1];
    assert a[0] == 0 && a[1] == 1 && a[2] == 2 && b[0] == 0 && b[1] == 2 && b[2] == 1;
  }

  /** The codes do depend on the order of the workers: two runs on one package, with the same
      answers throughout, in which the two declarations are extracted in different orders.
      In one the sanctioned owner is screened before the owner for whom there is no answer;
      in the other he is never screened, and a code is missing. */
  lemma OrderChangesCodes(lib: Library) returns (first: seq<Choice>, second: seq<Choice>)
    ensures Stateless(OwnersWorld(lib))
    ensures Exec(OwnersWorld(lib), OWNERS_CASE, first).Some? && Exec(OwnersWorld(lib), OWNERS_CASE, second).Some?
    ensures var c, d := Exec(OwnersWorld(lib), OWNERS_CASE, first).value, Exec(OwnersWorld(lib), OWNERS_CASE, second).value;
            && DecidedByNow(c) && DecidedByNow(d)
            && SystemDecided(OwnersWorld(lib), OWNERS_CASE, c.finished).codes
               != SystemDecided(OwnersWorld(lib), OWNERS_CASE, d.finished).codes
  {
    OwnersStateless(lib);
    TwoSchedules();
    first := OwnersRun(lib, [0, 1, 2]);
    second := OwnersRun(lib, [0, 2, 1]);
    OrdersDiffer(lib);
  }

  // --- an expiry date that is not one ---

  /** A marker for the expiry date makes the rules raise exactly when its value is not empty
      and not an ISO date. */
  lemma GlitchedExpiryExact(
    lib: Library, claims: seq<Claim>, text: map<Field, string>, e: ExtractionResult, value: string)
    requires e.text == Overridden(lib, claims, text) && Claimed(lib, claims, ExpiryDate) == Some(value)
    requires e.docType == IdDocument && e.error.None?
    ensures ValidationRules.Raises(lib, e) <==> value != "" && lib.fromIso(value).None?
  {
    OverriddenExact(lib, claims, text, ExpiryDate);
  }

  const GLITCH_TEXT := "[OCR-GLITCH:expiry_date=x]"

  const GLITCH_CASE := Inputs("glitch",
    Package(Individual, Applicant("Ann", None, "", None, None, 0.0),
      [InputDocument("i", GLITCH_TEXT), InputDocument("p", "")]),
    SETTINGS)

  const GLITCH_ANSWER: seq<Classification> := [
    Classification("i", IdDocument, 1.0),
    Classification("p", ProofOfAddress, 1.0)]

  const GLITCH_TASKS := [
    ClassifiedDocument("i", IdDocument, 1.0),
    ClassifiedDocument("p", ProofOfAddress, 1.0)]

  lemma GlitchTextMarkers()
    ensures Markers(GLITCH_TEXT) == [Marker("expiry_date", "x", 26)]
  {
    var t := GLITCH_TEXT;
    assert |t| == 26 && t[0..12] == MARKER;
    assert FieldEnd(t, 12) == 23 && ValueEnd(t, 24) == 25;
    assert t[12..23] == "expiry_date" && t[24..25] == "x";
    assert MARKERS(t, 0) == Some(Marker("expiry_date", "x", 26));
    assert Found(MARKERS, t, 26) == [];
  }

  lemma ExpiryNamed()
    ensures FieldNamed("expiry_date") == ExpiryDate
  {
    assert FIELDS[1..][0] == DateOfBirth && FIELDS[1..][1..][0] == DocumentNumber && FIELDS[1..][1..][1..][0] == ExpiryDate;
  }

  lemma OneClaim(m: Marker)
    ensures ClaimsOf([m]) == [Claim(FieldNamed(m.name), m.value)]
  {
  }

  lemma GlitchTextClaims()
    ensures Claims(GLITCH_TEXT) == [Claim(ExpiryDate, "x")]
  {
    GlitchTextMarkers();
    ExpiryNamed();
    OneClaim(Marker("expiry_date", "x", 26));
  }

  lemma StripX(lib: Library)
    requires !lib.space('x')
    ensures Strip(lib, "x") == "x"
  {
    var x := "x";
    assert Leading(lib, x) == 0 && Trailing(lib, x) == 0;
    assert x[0..] == x && x[..1] == x;
  }

  lemma GlitchClaims(lib: Library)
    requires !lib.space('x')
    ensures Claimed(lib, Claims(GLITCH_TEXT), ExpiryDate) == Some("x")
  {
    GlitchTextClaims();
    StripX(lib);
  }

  /** The identity document is extracted as `e`. */
  function GlitchWorld(lib: Library, e: ExtractionResult): World {
    World(
      lib,
      k => Answer(GLITCH_ANSWER),
      i => k => Answer(if i == 0 then Extracted(e.text, e.owners, e.confidences, e.error)
                       else Extracted(map[], [], [], None)),
      (j, d, x) => k => Answer([]),
      (s, i, name) => k => Answer([]),
      k => Answer(""))
  }

  lemma GlitchTasks(lib: Library, e: ExtractionResult)
    ensures Routed(GlitchWorld(lib, e), GLITCH_CASE) && Complete(GlitchWorld(lib, e), GLITCH_CASE)
    ensures Tasks(GlitchWorld(lib, e), GLITCH_CASE) == GLITCH_TASKS
  {
    var w := GlitchWorld(lib, e);
    assert w.router(1) == Answer(GLITCH_ANSWER);
    assert Routing(w, GLITCH_CASE).result == Some(GLITCH_ANSWER);
    assert Lookup(GLITCH_ANSWER, "p") == Some(GLITCH_ANSWER[1]);
    assert Lookup(GLITCH_ANSWER[..1], "i") == Some(GLITCH_ANSWER[0]);
    assert Lookup(GLITCH_ANSWER, "i") == Some(GLITCH_ANSWER[0]);
    var t := GLITCH_TASKS;
    assert Classified(w, GLITCH_CASE) == t;
    KnownAll([], t[0]);
    KnownAll([t[0]], t[1]);
    assert [] + [t[0]] == [t[0]] && [t[0]] + [t[1]] == t;
    assert t[0] in t && t[1] in t;
  }

  lemma GlitchResult(lib: Library, e: ExtractionResult)
    ensures TaskResult(GlitchWorld(lib, e), GLITCH_CASE, 0) == e.(id := "i", docType := IdDocument)
  {
    GlitchTasks(lib, e);
    assert GlitchWorld(lib, e).extractor(0)(1) == Answer(Extracted(e.text, e.owners, e.confidences, e.error));
  }

  lemma GlitchRun(lib: Library, e: ExtractionResult) returns (choices: seq<Choice>)
    requires e.id == "i" && e.docType == IdDocument && ValidationRules.Raises(lib, e)
    ensures Exec(GlitchWorld(lib, e), GLITCH_CASE, choices).Some?
    ensures Exec(GlitchWorld(lib, e), GLITCH_CASE, choices).value.pc.Crashed?
  {
    var w, order := GlitchWorld(lib, e), [0, 1];
    GlitchTasks(lib, e);
    GlitchResult(lib, e);
    assert order[0] == 0 && order[1] == 1;
    choices := Progress.EveryScheduleRuns(w, GLITCH_CASE, order);
    Progress.RaisesExactly(w, GLITCH_CASE, choices);
  }

  /** The offline extractor does give such an extraction, on a document that says nothing but
      a marker, and the run of a complete package with that document raises. */
  method ExtractionThatRaises(lib: Library, p: Patterns) returns (e: ExtractionResult, ghost choices: seq<Choice>)
    requires DateCharsPlain(lib)
    requires !lib.space('x') && lib.fromIso("x").None?
    ensures e.id == GLITCH_CASE.package.documents[0].id && ValidationRules.Raises(lib, e)
    ensures Exec(GlitchWorld(lib, e), GLITCH_CASE, choices).Some?
    ensures Exec(GlitchWorld(lib, e), GLITCH_CASE, choices).value.pc.Crashed?
  {
    e := Extract(lib, p, GLITCH_CASE.package.documents[0], IdDocument);
    GlitchClaims(lib);
    ghost var text := Labelled(lib, p, GLITCH_TEXT, FieldsOf(IdDocument));
    OverriddenExact(lib, Claims(GLITCH_TEXT), text, ExpiryDate);
    GlitchedExpiryExact(lib, Claims(GLITCH_TEXT), text, e, "x");
    choices := GlitchRun(lib, e);
  }
}

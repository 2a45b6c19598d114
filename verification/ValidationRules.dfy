/** Deterministic validation: declared data against extracted fields, document expiry,
    and completeness of an extraction. */
module ValidationRules {
  import opened Schemas
  import opened Text
  import opened Dates

  /** The checks made and the flags raised, each in order. */
  datatype Verdict = Verdict(checks: seq<FieldCheck>, flags: seq<RuleFlag>) {
    function Plus(that: Verdict): Verdict {
      Verdict(checks + that.checks, flags + that.flags)
    }
  }

  const NOTHING := Verdict([], [])

  function Note(check: Option<FieldCheck>, flag: Option<RuleFlag>): Verdict {
    Verdict(if check.Some? then [check.value] else [], if flag.Some? then [flag.value] else [])
  }

  function TextOf(e: ExtractionResult, f: Field): Option<string> {
    if f in e.text then Some(e.text[f]) else None
  }

  function FuzzyRatio(lib: Library, a: string, b: string): real {
    lib.ratio(Normalize(lib, a), Normalize(lib, b))
  }

  function CheckPackageCompleteness(c: CustomerType, present: set<DocumentType>): (flag: Option<RuleFlag>)
    ensures flag.None? <==> RequiredDocuments(c) <= present
    ensures flag.Some? ==> flag.value == RuleFlag(INCOMPLETE_PACKAGE, Critical)
  {
    var missing := RequiredDocuments(c) - present;
    assert forall t :: t in RequiredDocuments(c) && t !in present ==> t in missing;
    assert RequiredDocuments(c) <= present ==> missing == {};
    if missing == {} then None else Some(RuleFlag(INCOMPLETE_PACKAGE, Critical))
  }

  function CheckName(
    lib: Library, settings: Settings, declared: string, extracted: Option<string>, rule: RuleId, field: Field)
    : Verdict
  {
    if extracted.None? then
      Note(Some(FieldCheck(field, declared, None, false, false)), None)
    else
      var ratio := FuzzyRatio(lib, declared, extracted.value);
      if ratio >= settings.nameWarning then
        Note(Some(FieldCheck(field, declared, extracted, true, false)), None)
      else
        var severity := if ratio < settings.nameCritical then Critical else Warning;
        Note(Some(FieldCheck(field, declared, extracted, false, severity == Critical)),
             Some(RuleFlag(rule, severity)))
  }

  function CheckExact(
    lib: Library, declared: Option<string>, extracted: Option<string>, rule: RuleId, field: Field): Verdict
  {
    if declared.None? || extracted.None? then NOTHING
    else if Normalize(lib, declared.value) == Normalize(lib, extracted.value) then
      Note(Some(FieldCheck(field, declared.value, extracted, true, false)), None)
    else
      Note(Some(FieldCheck(field, declared.value, extracted, false, true)), Some(RuleFlag(rule, Critical)))
  }

  function CheckAddress(lib: Library, settings: Settings, declared: string, extracted: Option<string>): Verdict {
    if extracted.None? then NOTHING
    else if FuzzyRatio(lib, declared, extracted.value) >= settings.addressMatch then
      Note(Some(FieldCheck(Address, declared, extracted, true, false)), None)
    else
      Note(Some(FieldCheck(Address, declared, extracted, false, false)),
           Some(RuleFlag(ADDRESS_MISMATCH, Warning)))
  }

  /** A required field is missing when it is absent, an empty string or an empty list. */
  predicate Missing(e: ExtractionResult, f: Field) {
    if f in e.text then e.text[f] == "" else f != BeneficialOwners || e.owners == []
  }

  function IncompleteFlags(e: ExtractionResult, required: seq<Field>): seq<RuleFlag> {
    if required == [] then []
    else
      var last := |required| - 1;
      IncompleteFlags(e, required[..last])
      + if Missing(e, required[last]) then [RuleFlag(EXTRACTION_INCOMPLETE, Warning)] else []
  }

  method CheckExtractionCompleteness(e: ExtractionResult) returns (flags: seq<RuleFlag>)
    ensures flags == IncompleteFlags(e, RequiredFields(e.docType))
    ensures flags == [] <==> forall f :: f in RequiredFields(e.docType) ==> !Missing(e, f)
    ensures forall flag :: flag in flags ==> flag == RuleFlag(EXTRACTION_INCOMPLETE, Warning)
  {
    var required := RequiredFields(e.docType);
    flags := [];
    for i := 0 to |required|
      invariant flags == IncompleteFlags(e, required[..i])
      invariant flags == [] <==> forall j :: 0 <= j < i ==> !Missing(e, required[j])
      invariant forall flag :: flag in flags ==> flag == RuleFlag(EXTRACTION_INCOMPLETE, Warning)
    {
      assert required[..i + 1][..i] == required[..i];
      if Missing(e, required[i]) {
        flags := flags + [RuleFlag(EXTRACTION_INCOMPLETE, Warning)];
      }
    }
    assert required[..|required|] == required;
  }

  /** The expiry date the rules read: nothing when absent or empty. */
  function ExpiryText(e: ExtractionResult): Option<string> {
    if e.docType == IdDocument && ExpiryDate in e.text && e.text[ExpiryDate] != ""
    then Some(e.text[ExpiryDate]) else None
  }

  /** Parsing the expiry date of this extraction raises, which ends the run. */
  predicate Raises(lib: Library, e: ExtractionResult) {
    e.error.None? && ExpiryText(e).Some? && lib.fromIso(ExpiryText(e).value).None?
  }

  predicate AnyRaises(lib: Library, es: seq<ExtractionResult>) {
    exists e | e in es :: Raises(lib, e)
  }

  predicate Expired(lib: Library, today: Date, e: ExtractionResult) {
    && ExpiryText(e).Some?
    && var expiry := lib.fromIso(ExpiryText(e).value);
    expiry.Some? && Before(expiry.value, today)
  }

  function DeclaredBirth(a: Applicant): Option<string> {
    if a.dateOfBirth.Some? then Some(Iso(a.dateOfBirth.value)) else None
  }

  function IdentityVerdict(lib: Library, settings: Settings, a: Applicant, e: ExtractionResult): Verdict {
    CheckName(lib, settings, a.fullName, TextOf(e, FullName), NAME_MISMATCH, FullName)
    .Plus(CheckExact(lib, DeclaredBirth(a), TextOf(e, DateOfBirth), DOB_MISMATCH, DateOfBirth))
    .Plus(Note(None, if Expired(lib, settings.today, e) then Some(RuleFlag(DOC_EXPIRED, Critical)) else None))
  }

  function RegistrationVerdict(lib: Library, settings: Settings, a: Applicant, e: ExtractionResult): Verdict {
    (if a.companyName.Some? && a.companyName.value != "" then
       CheckName(lib, settings, a.companyName.value, TextOf(e, CompanyName), COMPANY_NAME_MISMATCH, CompanyName)
     else NOTHING)
    .Plus(CheckExact(lib, a.registrationNumber, TextOf(e, RegistrationNumber), REG_NUMBER_MISMATCH, RegistrationNumber))
  }

  function FieldVerdict(lib: Library, settings: Settings, a: Applicant, e: ExtractionResult): Verdict {
    match e.docType
    case IdDocument => IdentityVerdict(lib, settings, a, e)
    case ProofOfAddress => CheckAddress(lib, settings, a.address, TextOf(e, Address))
    case BusinessRegistration => RegistrationVerdict(lib, settings, a, e)
    case _ => NOTHING
  }

  /** What one document contributes. */
  function DocumentVerdict(lib: Library, settings: Settings, a: Applicant, e: ExtractionResult): Verdict {
    if e.error.Some? then NOTHING
    else
      Verdict([], IncompleteFlags(e, RequiredFields(e.docType))).Plus(FieldVerdict(lib, settings, a, e))
  }

  function Validate(lib: Library, settings: Settings, a: Applicant, es: seq<ExtractionResult>): Verdict {
    if es == [] then NOTHING
    else Validate(lib, settings, a, es[..|es| - 1]).Plus(DocumentVerdict(lib, settings, a, es[|es| - 1]))
  }

  /** One turn of the loop; `None` when parsing the expiry date raises. */
  method ValidateDocument(lib: Library, settings: Settings, a: Applicant, e: ExtractionResult)
    returns (r: Option<Verdict>)
    ensures r.None? <==> Raises(lib, e)
    ensures r.Some? ==> r.value == DocumentVerdict(lib, settings, a, e)
  {
    if e.error.Some? {
      return Some(NOTHING);
    }
    var incomplete := CheckExtractionCompleteness(e);
    if Raises(lib, e) {
      return None;
    }
    return Some(Verdict([], incomplete).Plus(FieldVerdict(lib, settings, a, e)));
  }

  lemma ValidateStep(lib: Library, settings: Settings, a: Applicant, es: seq<ExtractionResult>, i: nat)
    requires i < |es|
    ensures Validate(lib, settings, a, es[..i + 1])
            == Validate(lib, settings, a, es[..i]).Plus(DocumentVerdict(lib, settings, a, es[i]))
  {
    assert es[..i + 1][..i] == es[..i];
  }

  /** The documents up to the first that raises. */
  ghost predicate Quiet(lib: Library, es: seq<ExtractionResult>, n: nat) {
    forall j :: 0 <= j < n <= |es| ==> !Raises(lib, es[j])
  }

  lemma AnyRaisesExact(lib: Library, es: seq<ExtractionResult>)
    ensures AnyRaises(lib, es) <==> !Quiet(lib, es, |es|)
  {
    if j :| 0 <= j < |es| && Raises(lib, es[j]) {
      assert es[j] in es;
    }
  }

  ghost predicate Passed(
    lib: Library, settings: Settings, a: Applicant, es: seq<ExtractionResult>, n: nat,
    checks: seq<FieldCheck>, flags: seq<RuleFlag>)
  {
    n <= |es| && Quiet(lib, es, n) && Verdict(checks, flags) == Validate(lib, settings, a, es[..n])
  }

  lemma PassedOne(
    lib: Library, settings: Settings, a: Applicant, es: seq<ExtractionResult>, n: nat,
    checks: seq<FieldCheck>, flags: seq<RuleFlag>, v: Verdict)
    requires n < |es| && Passed(lib, settings, a, es, n, checks, flags)
    requires !Raises(lib, es[n]) && v == DocumentVerdict(lib, settings, a, es[n])
    ensures Passed(lib, settings, a, es, n + 1, checks + v.checks, flags + v.flags)
  {
    ValidateStep(lib, settings, a, es, n);
  }

  /** The pass over all documents; `None` when parsing an expiry date raises. */
  method RunValidationRules(lib: Library, settings: Settings, a: Applicant, es: seq<ExtractionResult>)
    returns (r: Option<Verdict>)
    ensures r.None? <==> AnyRaises(lib, es)
    ensures r.Some? ==> r.value == Validate(lib, settings, a, es)
  {
    var checks, flags := [], [];
    AnyRaisesExact(lib, es);
    for i := 0 to |es|
      invariant Passed(lib, settings, a, es, i, checks, flags)
    {
      var v := ValidateDocument(lib, settings, a, es[i]);
      if v.None? {
        return None;
      }
      PassedOne(lib, settings, a, es, i, checks, flags, v.value);
      checks := checks + v.value.checks;
      flags := flags + v.value.flags;
    }
    assert es[..|es|] == es;
    return Some(Verdict(checks, flags));
  }

  // --- accounting ---

  lemma PlusAssociative(u: Verdict, v: Verdict, w: Verdict)
    ensures u.Plus(v).Plus(w) == u.Plus(v.Plus(w))
  {
    assert (u.checks + v.checks) + w.checks == u.checks + (v.checks + w.checks);
    assert (u.flags + v.flags) + w.flags == u.flags + (v.flags + w.flags);
  }

  /** The result on a concatenation of documents is the concatenation of the results. */
  lemma {:induction false} ValidateConcat(
    lib: Library, settings: Settings, a: Applicant, es: seq<ExtractionResult>, fs: seq<ExtractionResult>)
    ensures Validate(lib, settings, a, es + fs)
            == Validate(lib, settings, a, es).Plus(Validate(lib, settings, a, fs))
  {
    var v := Validate(lib, settings, a, es);
    if fs == [] {
      assert es + fs == es;
      assert v.checks + [] == v.checks && v.flags + [] == v.flags;
    } else {
      var last := |fs| - 1;
      ValidateConcat(lib, settings, a, es, fs[..last]);
      assert (es + fs)[..|es + fs| - 1] == es + fs[..last];
      PlusAssociative(v, Validate(lib, settings, a, fs[..last]), DocumentVerdict(lib, settings, a, fs[last]));
    }
  }

  function CriticalChecks(checks: seq<FieldCheck>): nat {
    if checks == [] then 0
    else CriticalChecks(checks[..|checks| - 1]) + if checks[|checks| - 1].critical then 1 else 0
  }

  const DECLARED_DATA_RULES := {NAME_MISMATCH, DOB_MISMATCH, COMPANY_NAME_MISMATCH, REG_NUMBER_MISMATCH}

  predicate DeclaredMismatch(f: RuleFlag) {
    f.rule in DECLARED_DATA_RULES && f.severity == Critical
  }

  function DeclaredMismatches(flags: seq<RuleFlag>): nat {
    if flags == [] then 0
    else DeclaredMismatches(flags[..|flags| - 1]) + if DeclaredMismatch(flags[|flags| - 1]) then 1 else 0
  }

  lemma {:induction false} CriticalChecksConcat(s: seq<FieldCheck>, t: seq<FieldCheck>)
    ensures CriticalChecks(s + t) == CriticalChecks(s) + CriticalChecks(t)
  {
    if t == [] {
      assert s + t == s;
    } else {
      CriticalChecksConcat(s, t[..|t| - 1]);
      assert (s + t)[..|s + t| - 1] == s + t[..|t| - 1];
    }
  }

  lemma {:induction false} DeclaredMismatchesConcat(s: seq<RuleFlag>, t: seq<RuleFlag>)
    ensures DeclaredMismatches(s + t) == DeclaredMismatches(s) + DeclaredMismatches(t)
  {
    if t == [] {
      assert s + t == s;
    } else {
      DeclaredMismatchesConcat(s, t[..|t| - 1]);
      assert (s + t)[..|s + t| - 1] == s + t[..|t| - 1];
    }
  }

  ghost predicate Balanced(v: Verdict) {
    CriticalChecks(v.checks) == DeclaredMismatches(v.flags)
  }

  lemma BalancedPlus(v: Verdict, w: Verdict)
    requires Balanced(v) && Balanced(w)
    ensures Balanced(v.Plus(w))
  {
    CriticalChecksConcat(v.checks, w.checks);
    DeclaredMismatchesConcat(v.flags, w.flags);
  }

  lemma {:induction false} IncompleteFlagsAreWarnings(e: ExtractionResult, required: seq<Field>)
    ensures DeclaredMismatches(IncompleteFlags(e, required)) == 0
    ensures forall f :: f in IncompleteFlags(e, required) ==> f == RuleFlag(EXTRACTION_INCOMPLETE, Warning)
    ensures IncompleteFlags(e, required) != [] <==> exists f :: f in required && Missing(e, f)
  {
    if required != [] {
      var last := |required| - 1;
      IncompleteFlagsAreWarnings(e, required[..last]);
      var flag := RuleFlag(EXTRACTION_INCOMPLETE, Warning);
      DeclaredMismatchesConcat(IncompleteFlags(e, required[..last]), [flag]);
      assert [flag][..0] == [] && DeclaredMismatches([flag]) == 0;
      assert IncompleteFlags(e, required[..last]) + [] == IncompleteFlags(e, required[..last]);
      assert required == required[..last] + [required[last]];
    }
  }

  lemma NotesBalanced(check: Option<FieldCheck>, flag: Option<RuleFlag>)
    requires (check.Some? && check.value.critical) <==> (flag.Some? && DeclaredMismatch(flag.value))
    ensures Balanced(Note(check, flag))
  {
  }

  lemma ChecksBalanced(
    lib: Library, settings: Settings, declared: Option<string>, extracted: Option<string>, rule: RuleId, field: Field)
    requires rule in DECLARED_DATA_RULES
    ensures declared.Some? ==> Balanced(CheckName(lib, settings, declared.value, extracted, rule, field))
    ensures Balanced(CheckExact(lib, declared, extracted, rule, field))
  {
  }

  lemma IdentityBalanced(lib: Library, settings: Settings, a: Applicant, e: ExtractionResult)
    ensures Balanced(IdentityVerdict(lib, settings, a, e))
  {
    var name := CheckName(lib, settings, a.fullName, TextOf(e, FullName), NAME_MISMATCH, FullName);
    var birth := CheckExact(lib, DeclaredBirth(a), TextOf(e, DateOfBirth), DOB_MISMATCH, DateOfBirth);
    var flag := if Expired(lib, settings.today, e) then Some(RuleFlag(DOC_EXPIRED, Critical)) else None;
    ChecksBalanced(lib, settings, Some(a.fullName), TextOf(e, FullName), NAME_MISMATCH, FullName);
    ChecksBalanced(lib, settings, DeclaredBirth(a), TextOf(e, DateOfBirth), DOB_MISMATCH, DateOfBirth);
    NotesBalanced(None, flag);
    BalancedPlus(name, birth);
    BalancedPlus(name.Plus(birth), Note(None, flag));
  }

  lemma RegistrationBalanced(lib: Library, settings: Settings, a: Applicant, e: ExtractionResult)
    ensures Balanced(RegistrationVerdict(lib, settings, a, e))
  {
    var name := if a.companyName.Some? && a.companyName.value != "" then
        CheckName(lib, settings, a.companyName.value, TextOf(e, CompanyName), COMPANY_NAME_MISMATCH, CompanyName)
      else NOTHING;
    ChecksBalanced(lib, settings, a.companyName, TextOf(e, CompanyName), COMPANY_NAME_MISMATCH, CompanyName);
    ChecksBalanced(lib, settings, a.registrationNumber, TextOf(e, RegistrationNumber), REG_NUMBER_MISMATCH, RegistrationNumber);
    BalancedPlus(name,
      CheckExact(lib, a.registrationNumber, TextOf(e, RegistrationNumber), REG_NUMBER_MISMATCH, RegistrationNumber));
  }

  lemma FieldVerdictBalanced(lib: Library, settings: Settings, a: Applicant, e: ExtractionResult)
    ensures Balanced(FieldVerdict(lib, settings, a, e))
  {
    match e.docType
    case IdDocument => IdentityBalanced(lib, settings, a, e);
    case BusinessRegistration => RegistrationBalanced(lib, settings, a, e);
    case _ =>
  }

  /** Critical checks equal in number the CRITICAL name, birth-date, company and
      registration flags. */
  lemma {:induction false} CriticalChecksCounted(
    lib: Library, settings: Settings, a: Applicant, es: seq<ExtractionResult>)
    ensures var v := Validate(lib, settings, a, es);
            CriticalChecks(v.checks) == DeclaredMismatches(v.flags)
  {
    if es != [] {
      var e := es[|es| - 1];
      CriticalChecksCounted(lib, settings, a, es[..|es| - 1]);
      IncompleteFlagsAreWarnings(e, RequiredFields(e.docType));
      FieldVerdictBalanced(lib, settings, a, e);
      BalancedPlus(Verdict([], IncompleteFlags(e, RequiredFields(e.docType))), FieldVerdict(lib, settings, a, e));
      BalancedPlus(Validate(lib, settings, a, es[..|es| - 1]), DocumentVerdict(lib, settings, a, e));
    }
  }

  /** The rule a failed check answers to. */
  function BackingRule(c: FieldCheck): RuleId {
    if c.extracted.None? then EXTRACTION_INCOMPLETE
    else match c.field
      case FullName => NAME_MISMATCH
      case DateOfBirth => DOB_MISMATCH
      case CompanyName => COMPANY_NAME_MISMATCH
      case RegistrationNumber => REG_NUMBER_MISMATCH
      case _ => ADDRESS_MISMATCH
  }

  ghost predicate Backed(v: Verdict) {
    forall c :: c in v.checks && !c.matches && c.extracted.Some? ==>
      exists f :: f in v.flags && f.rule == BackingRule(c)
  }

  lemma BackedPlus(v: Verdict, w: Verdict)
    requires Backed(v) && Backed(w)
    ensures Backed(v.Plus(w))
  {
    forall c | c in v.Plus(w).checks && !c.matches && c.extracted.Some?
      ensures exists f :: f in v.Plus(w).flags && f.rule == BackingRule(c)
    {
      var f :| (f in v.flags || f in w.flags) && f.rule == BackingRule(c);
      assert f in v.Plus(w).flags;
    }
  }

  lemma NameBacked(lib: Library, settings: Settings, declared: string, extracted: Option<string>, rule: RuleId, field: Field)
    requires (rule == NAME_MISMATCH && field == FullName) || (rule == COMPANY_NAME_MISMATCH && field == CompanyName)
    ensures Backed(CheckName(lib, settings, declared, extracted, rule, field))
    ensures forall c :: c in CheckName(lib, settings, declared, extracted, rule, field).checks ==>
              c.field == field && c.extracted == extracted
  {
    var v := CheckName(lib, settings, declared, extracted, rule, field);
    assert v.flags != [] ==> v.flags[0] in v.flags;
  }

  lemma ExactBacked(lib: Library, declared: Option<string>, extracted: Option<string>, rule: RuleId, field: Field)
    requires (rule == DOB_MISMATCH && field == DateOfBirth) || (rule == REG_NUMBER_MISMATCH && field == RegistrationNumber)
    ensures Backed(CheckExact(lib, declared, extracted, rule, field))
    ensures forall c :: c in CheckExact(lib, declared, extracted, rule, field).checks ==> c.extracted.Some?
  {
    var v := CheckExact(lib, declared, extracted, rule, field);
    assert v.flags != [] ==> v.flags[0] in v.flags;
  }

  /** A check without an extracted value is about a required field that is missing. */
  ghost predicate Explained(v: Verdict, e: ExtractionResult) {
    && Backed(v)
    && forall c :: c in v.checks && c.extracted.None? ==> c.field in RequiredFields(e.docType) && Missing(e, c.field)
  }

  lemma IdentityBacked(lib: Library, settings: Settings, a: Applicant, e: ExtractionResult)
    requires e.docType == IdDocument
    ensures Explained(IdentityVerdict(lib, settings, a, e), e)
  {
    var name := CheckName(lib, settings, a.fullName, TextOf(e, FullName), NAME_MISMATCH, FullName);
    var birth := CheckExact(lib, DeclaredBirth(a), TextOf(e, DateOfBirth), DOB_MISMATCH, DateOfBirth);
    NameBacked(lib, settings, a.fullName, TextOf(e, FullName), NAME_MISMATCH, FullName);
    ExactBacked(lib, DeclaredBirth(a), TextOf(e, DateOfBirth), DOB_MISMATCH, DateOfBirth);
    BackedPlus(name, birth);
    BackedPlus(name.Plus(birth),
      Note(None, if Expired(lib, settings.today, e) then Some(RuleFlag(DOC_EXPIRED, Critical)) else None));
  }

  lemma RegistrationBacked(lib: Library, settings: Settings, a: Applicant, e: ExtractionResult)
    requires e.docType == BusinessRegistration
    ensures Explained(RegistrationVerdict(lib, settings, a, e), e)
  {
    var named := a.companyName.Some? && a.companyName.value != "";
    var name := if named then
        CheckName(lib, settings, a.companyName.value, TextOf(e, CompanyName), COMPANY_NAME_MISMATCH, CompanyName)
      else NOTHING;
    if named {
      NameBacked(lib, settings, a.companyName.value, TextOf(e, CompanyName), COMPANY_NAME_MISMATCH, CompanyName);
    }
    var number := CheckExact(lib, a.registrationNumber, TextOf(e, RegistrationNumber), REG_NUMBER_MISMATCH, RegistrationNumber);
    ExactBacked(lib, a.registrationNumber, TextOf(e, RegistrationNumber), REG_NUMBER_MISMATCH, RegistrationNumber);
    BackedPlus(name, number);
  }

  lemma AddressBacked(lib: Library, settings: Settings, declared: string, e: ExtractionResult)
    ensures Explained(CheckAddress(lib, settings, declared, TextOf(e, Address)), e)
  {
    var v := CheckAddress(lib, settings, declared, TextOf(e, Address));
    assert v.flags != [] ==> v.flags[0] in v.flags;
  }

  lemma FieldVerdictBacked(lib: Library, settings: Settings, a: Applicant, e: ExtractionResult)
    ensures Explained(FieldVerdict(lib, settings, a, e), e)
  {
    match e.docType
    case IdDocument => IdentityBacked(lib, settings, a, e);
    case BusinessRegistration => RegistrationBacked(lib, settings, a, e);
    case ProofOfAddress => AddressBacked(lib, settings, a.address, e);
    case _ =>
  }

  /** Every check that does not match, a missing name included, is backed by a flag of the
      rule it answers to, raised on the same document. */
  lemma FailedChecksAreBacked(
    lib: Library, settings: Settings, a: Applicant, e: ExtractionResult, c: FieldCheck)
    requires c in DocumentVerdict(lib, settings, a, e).checks && !c.matches
    ensures exists f :: f in DocumentVerdict(lib, settings, a, e).flags && f.rule == BackingRule(c)
  {
    var incomplete := IncompleteFlags(e, RequiredFields(e.docType));
    var own := FieldVerdict(lib, settings, a, e);
    assert DocumentVerdict(lib, settings, a, e) == Verdict([], incomplete).Plus(own);
    FieldVerdictBacked(lib, settings, a, e);
    IncompleteFlagsAreWarnings(e, RequiredFields(e.docType));
    BackedPlus(Verdict([], incomplete), own);
    if c.extracted.None? {
      assert incomplete[0] in incomplete + own.flags;
    }
  }

  // --- what the rules can raise ---

  /** The shape of a deterministic flag: a critical one either contradicts declared data
      or reports an expired document. */
  predicate RuleShaped(f: RuleFlag) {
    || (f.severity == Critical && f.rule in DECLARED_DATA_RULES + {DOC_EXPIRED})
    || (f.severity == Warning
        && f.rule in {EXTRACTION_INCOMPLETE, ADDRESS_MISMATCH, NAME_MISMATCH, COMPANY_NAME_MISMATCH})
  }

  ghost predicate Shaped(v: Verdict) {
    forall f :: f in v.flags ==> RuleShaped(f)
  }

  lemma DocumentFlagsShaped(lib: Library, settings: Settings, a: Applicant, e: ExtractionResult)
    ensures Shaped(DocumentVerdict(lib, settings, a, e))
  {
    IncompleteFlagsAreWarnings(e, RequiredFields(e.docType));
    assert Shaped(FieldVerdict(lib, settings, a, e)) by {
      match e.docType
      case IdDocument => IdentityShaped(lib, settings, a, e);
      case BusinessRegistration => RegistrationShaped(lib, settings, a, e);
      case _ =>
    }
  }

  lemma IdentityShaped(lib: Library, settings: Settings, a: Applicant, e: ExtractionResult)
    ensures Shaped(IdentityVerdict(lib, settings, a, e))
  {
    assert Shaped(CheckName(lib, settings, a.fullName, TextOf(e, FullName), NAME_MISMATCH, FullName));
    assert Shaped(CheckExact(lib, DeclaredBirth(a), TextOf(e, DateOfBirth), DOB_MISMATCH, DateOfBirth));
  }

  lemma RegistrationShaped(lib: Library, settings: Settings, a: Applicant, e: ExtractionResult)
    ensures Shaped(RegistrationVerdict(lib, settings, a, e))
  {
    assert a.companyName.Some? ==>
        Shaped(CheckName(lib, settings, a.companyName.value, TextOf(e, CompanyName), COMPANY_NAME_MISMATCH, CompanyName));
    assert Shaped(CheckExact(lib, a.registrationNumber, TextOf(e, RegistrationNumber), REG_NUMBER_MISMATCH, RegistrationNumber));
  }

  lemma {:induction false} FlagFrom(
    lib: Library, settings: Settings, a: Applicant, es: seq<ExtractionResult>, f: RuleFlag)
    returns (e: ExtractionResult)
    requires f in Validate(lib, settings, a, es).flags
    ensures e in es && f in DocumentVerdict(lib, settings, a, e).flags
  {
    var front, last := es[..|es| - 1], es[|es| - 1];
    if f in Validate(lib, settings, a, front).flags {
      e := FlagFrom(lib, settings, a, front, f);
    } else {
      e := last;
    }
  }

  lemma {:induction false} FlagTo(
    lib: Library, settings: Settings, a: Applicant, es: seq<ExtractionResult>, k: nat, f: RuleFlag)
    requires k < |es| && f in DocumentVerdict(lib, settings, a, es[k]).flags
    ensures f in Validate(lib, settings, a, es).flags
  {
    if k < |es| - 1 {
      FlagTo(lib, settings, a, es[..|es| - 1], k, f);
    }
  }

  /** A flag of the whole pass was raised on one of the documents, and conversely. */
  lemma FlagOrigin(
    lib: Library, settings: Settings, a: Applicant, es: seq<ExtractionResult>, f: RuleFlag)
    ensures f in Validate(lib, settings, a, es).flags
            <==> exists e :: e in es && f in DocumentVerdict(lib, settings, a, e).flags
  {
    if f in Validate(lib, settings, a, es).flags {
      var e := FlagFrom(lib, settings, a, es, f);
    }
    if e :| e in es && f in DocumentVerdict(lib, settings, a, e).flags {
      var k :| 0 <= k < |es| && es[k] == e;
      FlagTo(lib, settings, a, es, k, f);
    }
  }

  lemma ValidateShaped(lib: Library, settings: Settings, a: Applicant, es: seq<ExtractionResult>)
    ensures forall f :: f in Validate(lib, settings, a, es).flags ==> RuleShaped(f)
  {
    forall f | f in Validate(lib, settings, a, es).flags
      ensures RuleShaped(f)
    {
      FlagOrigin(lib, settings, a, es, f);
      var e :| e in es && f in DocumentVerdict(lib, settings, a, e).flags;
      DocumentFlagsShaped(lib, settings, a, e);
    }
  }

  const BIRTH_FLAG := RuleFlag(DOB_MISMATCH, Critical)

  lemma BirthFlagFromCheck(lib: Library, settings: Settings, a: Applicant, e: ExtractionResult)
    requires e.error.None? && e.docType == IdDocument
    ensures BIRTH_FLAG in DocumentVerdict(lib, settings, a, e).flags
            <==> BIRTH_FLAG in CheckExact(lib, DeclaredBirth(a), TextOf(e, DateOfBirth), DOB_MISMATCH, DateOfBirth).flags
  {
    IncompleteFlagsAreWarnings(e, RequiredFields(e.docType));
    var name := CheckName(lib, settings, a.fullName, TextOf(e, FullName), NAME_MISMATCH, FullName);
    var birth := CheckExact(lib, DeclaredBirth(a), TextOf(e, DateOfBirth), DOB_MISMATCH, DateOfBirth);
    assert BIRTH_FLAG !in name.flags;
    assert FieldVerdict(lib, settings, a, e) == IdentityVerdict(lib, settings, a, e);
  }

  /** An identity document draws DOB_MISMATCH if and only if both dates are present and
      differ: exactly, for every extracted text, when its normal form is not the declared
      date's ISO string. */
  lemma BirthMismatchExact(lib: Library, settings: Settings, a: Applicant, e: ExtractionResult)
    requires DateCharsPlain(lib) && e.error.None? && e.docType == IdDocument
    ensures BIRTH_FLAG in DocumentVerdict(lib, settings, a, e).flags
            <==> a.dateOfBirth.Some? && DateOfBirth in e.text
                 && Normalize(lib, e.text[DateOfBirth]) != Iso(a.dateOfBirth.value)
  {
    BirthFlagFromCheck(lib, settings, a, e);
    if a.dateOfBirth.Some? {
      DatesArePlain(lib, a.dateOfBirth.value);
      PlainNormalize(lib, Iso(a.dateOfBirth.value));
    }
  }

  /** On an extracted ISO date, as both extractors give: if and only if the dates differ. */
  lemma BirthMismatchOfDates(lib: Library, settings: Settings, a: Applicant, e: ExtractionResult, d: Date)
    requires DateCharsPlain(lib) && e.error.None? && e.docType == IdDocument
    requires Valid(d) && DateOfBirth in e.text && e.text[DateOfBirth] == Iso(d)
    requires a.dateOfBirth.Some? ==> Valid(a.dateOfBirth.value)
    ensures BIRTH_FLAG in DocumentVerdict(lib, settings, a, e).flags
            <==> a.dateOfBirth.Some? && a.dateOfBirth.value != d
  {
    BirthMismatchExact(lib, settings, a, e);
    DatesArePlain(lib, d);
    PlainNormalize(lib, Iso(d));
    if a.dateOfBirth.Some? && Iso(a.dateOfBirth.value) == Iso(d) {
      IsoInjective(a.dateOfBirth.value, d);
    }
  }

  // --- what draws a flag, written out ---

  function Similarity(lib: Library, declared: string, extracted: string): real {
    lib.ratio(Normalize(lib, declared), Normalize(lib, extracted))
  }

  /** Dates as numbers that grow with them: 2026-01-31 is 20260131. */
  function Calendar(d: Date): nat {
    10000 * d.year + 100 * d.month + d.day
  }

  lemma BeforeExact(a: Date, b: Date)
    requires Valid(a) && Valid(b)
    ensures Before(a, b) <==> Calendar(a) < Calendar(b)
  {
  }

  /** Which types of document must have a field. */
  predicate Needs(t: DocumentType, f: Field) {
    match f
    case FullName => t == IdDocument || t == ProofOfAddress
    case DateOfBirth => t == IdDocument
    case DocumentNumber => t == IdDocument
    case ExpiryDate => t == IdDocument
    case Address => t == ProofOfAddress
    case CompanyName => t == BusinessRegistration || t == UboDeclaration
    case RegistrationNumber => t == BusinessRegistration
    case BeneficialOwners => t == UboDeclaration
    case _ => false
  }

  lemma NeedsExact(t: DocumentType, f: Field)
    ensures f in RequiredFields(t) <==> Needs(t, f)
  {
  }

  /** Nothing was extracted for a field: it is absent, or empty. */
  predicate Lacks(e: ExtractionResult, f: Field) {
    && (f in e.text ==> e.text[f] == "")
    && (f !in e.text && f == BeneficialOwners ==> e.owners == [])
  }

  /** Library dates are calendar dates. */
  ghost predicate CalendarDates(lib: Library) {
    forall s :: lib.fromIso(s).Some? ==> Valid(lib.fromIso(s).value)
  }

  /** What a readable document must be like to draw a flag. */
  ghost predicate Draws(lib: Library, settings: Settings, a: Applicant, e: ExtractionResult, f: RuleFlag) {
    match f.rule
    case EXTRACTION_INCOMPLETE =>
      f.severity == Warning && exists field :: Needs(e.docType, field) && Lacks(e, field)
    case NAME_MISMATCH =>
      && e.docType == IdDocument && FullName in e.text
      && Similarity(lib, a.fullName, e.text[FullName]) < settings.nameWarning
      && (f.severity == Critical <==> Similarity(lib, a.fullName, e.text[FullName]) < settings.nameCritical)
    case DOB_MISMATCH =>
      && f.severity == Critical && e.docType == IdDocument && a.dateOfBirth.Some? && DateOfBirth in e.text
      && Normalize(lib, Iso(a.dateOfBirth.value)) != Normalize(lib, e.text[DateOfBirth])
    case DOC_EXPIRED =>
      && f.severity == Critical && e.docType == IdDocument && ExpiryDate in e.text && e.text[ExpiryDate] != ""
      && lib.fromIso(e.text[ExpiryDate]).Some?
      && Calendar(lib.fromIso(e.text[ExpiryDate]).value) < Calendar(settings.today)
    case ADDRESS_MISMATCH =>
      && f.severity == Warning && e.docType == ProofOfAddress && Address in e.text
      && Similarity(lib, a.address, e.text[Address]) < settings.addressMatch
    case COMPANY_NAME_MISMATCH =>
      && e.docType == BusinessRegistration && a.companyName.Some? && a.companyName.value != "" && CompanyName in e.text
      && Similarity(lib, a.companyName.value, e.text[CompanyName]) < settings.nameWarning
      && (f.severity == Critical <==> Similarity(lib, a.companyName.value, e.text[CompanyName]) < settings.nameCritical)
    case REG_NUMBER_MISMATCH =>
      && f.severity == Critical && e.docType == BusinessRegistration
      && a.registrationNumber.Some? && RegistrationNumber in e.text
      && Normalize(lib, a.registrationNumber.value) != Normalize(lib, e.text[RegistrationNumber])
    case _ => false
  }

  lemma NameFlags(
    lib: Library, settings: Settings, declared: string, extracted: Option<string>, rule: RuleId, field: Field, f: RuleFlag)
    ensures f in CheckName(lib, settings, declared, extracted, rule, field).flags <==>
              && extracted.Some? && f.rule == rule
              && Similarity(lib, declared, extracted.value) < settings.nameWarning
              && (f.severity == Critical <==> Similarity(lib, declared, extracted.value) < settings.nameCritical)
  {
  }

  lemma ExactFlags(lib: Library, declared: Option<string>, extracted: Option<string>, rule: RuleId, field: Field, f: RuleFlag)
    ensures f in CheckExact(lib, declared, extracted, rule, field).flags <==>
              && declared.Some? && extracted.Some? && f == RuleFlag(rule, Critical)
              && Normalize(lib, declared.value) != Normalize(lib, extracted.value)
  {
  }

  lemma AddressFlags(lib: Library, settings: Settings, declared: string, extracted: Option<string>, f: RuleFlag)
    ensures f in CheckAddress(lib, settings, declared, extracted).flags <==>
              && extracted.Some? && f == RuleFlag(ADDRESS_MISMATCH, Warning)
              && Similarity(lib, declared, extracted.value) < settings.addressMatch
  {
  }

  lemma ExpiredExact(lib: Library, today: Date, e: ExtractionResult)
    requires CalendarDates(lib) && Valid(today)
    ensures Expired(lib, today, e) <==>
              && e.docType == IdDocument && ExpiryDate in e.text && e.text[ExpiryDate] != ""
              && lib.fromIso(e.text[ExpiryDate]).Some?
              && Calendar(lib.fromIso(e.text[ExpiryDate]).value) < Calendar(today)
  {
    if ExpiryText(e).Some? && lib.fromIso(ExpiryText(e).value).Some? {
      BeforeExact(lib.fromIso(ExpiryText(e).value).value, today);
    }
  }

  lemma IdentityFlags(lib: Library, settings: Settings, a: Applicant, e: ExtractionResult, f: RuleFlag)
    requires CalendarDates(lib) && Valid(settings.today)
    requires e.docType == IdDocument && f.rule != EXTRACTION_INCOMPLETE
    ensures f in IdentityVerdict(lib, settings, a, e).flags <==> Draws(lib, settings, a, e, f)
  {
    NameFlags(lib, settings, a.fullName, TextOf(e, FullName), NAME_MISMATCH, FullName, f);
    ExactFlags(lib, DeclaredBirth(a), TextOf(e, DateOfBirth), DOB_MISMATCH, DateOfBirth, f);
    ExpiredExact(lib, settings.today, e);
  }

  lemma RegistrationFlags(lib: Library, settings: Settings, a: Applicant, e: ExtractionResult, f: RuleFlag)
    requires e.docType == BusinessRegistration && f.rule != EXTRACTION_INCOMPLETE
    ensures f in RegistrationVerdict(lib, settings, a, e).flags <==> Draws(lib, settings, a, e, f)
  {
    if a.companyName.Some? {
      NameFlags(lib, settings, a.companyName.value, TextOf(e, CompanyName), COMPANY_NAME_MISMATCH, CompanyName, f);
    }
    ExactFlags(lib, a.registrationNumber, TextOf(e, RegistrationNumber), REG_NUMBER_MISMATCH, RegistrationNumber, f);
  }

  lemma OwnFlags(lib: Library, settings: Settings, a: Applicant, e: ExtractionResult, f: RuleFlag)
    requires CalendarDates(lib) && Valid(settings.today) && f.rule != EXTRACTION_INCOMPLETE
    ensures f in FieldVerdict(lib, settings, a, e).flags <==> Draws(lib, settings, a, e, f)
  {
    match e.docType
    case IdDocument => IdentityFlags(lib, settings, a, e, f);
    case BusinessRegistration => RegistrationFlags(lib, settings, a, e, f);
    case ProofOfAddress => AddressFlags(lib, settings, a.address, TextOf(e, Address), f);
    case _ =>
  }

  lemma MissingFlags(e: ExtractionResult, f: RuleFlag)
    ensures f in IncompleteFlags(e, RequiredFields(e.docType)) <==>
              f == RuleFlag(EXTRACTION_INCOMPLETE, Warning) && exists field :: Needs(e.docType, field) && Lacks(e, field)
  {
    var flags := IncompleteFlags(e, RequiredFields(e.docType));
    IncompleteFlagsAreWarnings(e, RequiredFields(e.docType));
    assert flags != [] ==> flags[0] in flags;
    forall field
      ensures field in RequiredFields(e.docType) <==> Needs(e.docType, field)
      ensures Missing(e, field) <==> Lacks(e, field)
    {
      NeedsExact(e.docType, field);
    }
  }

  /** A document draws exactly the flags it gives reason for, and an unreadable one none. */
  lemma FlagsExact(lib: Library, settings: Settings, a: Applicant, e: ExtractionResult, f: RuleFlag)
    requires CalendarDates(lib) && Valid(settings.today)
    ensures f in DocumentVerdict(lib, settings, a, e).flags <==> e.error.None? && Draws(lib, settings, a, e, f)
  {
    if e.error.None? {
      MissingFlags(e, f);
      if f.rule == EXTRACTION_INCOMPLETE {
        NoIncompleteOtherwise(lib, settings, a, e, f);
      } else {
        OwnFlags(lib, settings, a, e, f);
      }
    }
  }

  lemma NoIncompleteOtherwise(lib: Library, settings: Settings, a: Applicant, e: ExtractionResult, f: RuleFlag)
    requires f.rule == EXTRACTION_INCOMPLETE
    ensures f !in FieldVerdict(lib, settings, a, e).flags
  {
    match e.docType
    case IdDocument =>
      NameFlags(lib, settings, a.fullName, TextOf(e, FullName), NAME_MISMATCH, FullName, f);
      ExactFlags(lib, DeclaredBirth(a), TextOf(e, DateOfBirth), DOB_MISMATCH, DateOfBirth, f);
    case BusinessRegistration =>
      if a.companyName.Some? {
        NameFlags(lib, settings, a.companyName.value, TextOf(e, CompanyName), COMPANY_NAME_MISMATCH, CompanyName, f);
      }
      ExactFlags(lib, a.registrationNumber, TextOf(e, RegistrationNumber), REG_NUMBER_MISMATCH, RegistrationNumber, f);
    case ProofOfAddress => AddressFlags(lib, settings, a.address, TextOf(e, Address), f);
    case _ =>
  }

  /** When the rules raise: on a readable identity document with an expiry date that is not
      empty and not an ISO date. */
  lemma RaisesExact(lib: Library, e: ExtractionResult)
    ensures Raises(lib, e) <==>
              && e.error.None? && e.docType == IdDocument
              && ExpiryDate in e.text && e.text[ExpiryDate] != "" && lib.fromIso(e.text[ExpiryDate]).None?
  {
  }

  /** How many of the fields it needs a document lacks. */
  function Lacking(e: ExtractionResult): nat {
    match e.docType
    case IdDocument =>
      One(Lacks(e, FullName)) + One(Lacks(e, DateOfBirth)) + One(Lacks(e, DocumentNumber)) + One(Lacks(e, ExpiryDate))
    case ProofOfAddress => One(Lacks(e, FullName)) + One(Lacks(e, Address))
    case BusinessRegistration => One(Lacks(e, CompanyName)) + One(Lacks(e, RegistrationNumber))
    case UboDeclaration => One(Lacks(e, CompanyName)) + One(Lacks(e, BeneficialOwners))
    case UnknownType => 0
  }

  lemma IncompleteAppend(e: ExtractionResult, fields: seq<Field>, f: Field)
    ensures |IncompleteFlags(e, fields + [f])| == |IncompleteFlags(e, fields)| + One(Lacks(e, f))
  {
    assert (fields + [f])[..|fields|] == fields;
  }

  lemma TwoIncomplete(e: ExtractionResult, a: Field, b: Field)
    ensures |IncompleteFlags(e, [a, b])| == One(Lacks(e, a)) + One(Lacks(e, b))
  {
    IncompleteAppend(e, [], a);
    IncompleteAppend(e, [a], b);
    assert [] + [a] == [a] && [a] + [b] == [a, b];
  }

  lemma FourIncomplete(e: ExtractionResult, a: Field, b: Field, c: Field, d: Field)
    ensures |IncompleteFlags(e, [a, b, c, d])|
            == One(Lacks(e, a)) + One(Lacks(e, b)) + One(Lacks(e, c)) + One(Lacks(e, d))
  {
    TwoIncomplete(e, a, b);
    IncompleteAppend(e, [a, b], c);
    IncompleteAppend(e, [a, b, c], d);
    assert [a, b] + [c] == [a, b, c] && [a, b, c] + [d] == [a, b, c, d];
  }

  lemma IncompleteCount(e: ExtractionResult)
    ensures |IncompleteFlags(e, RequiredFields(e.docType))| == Lacking(e)
  {
    match e.docType
    case IdDocument => FourIncomplete(e, FullName, DateOfBirth, DocumentNumber, ExpiryDate);
    case ProofOfAddress => TwoIncomplete(e, FullName, Address);
    case BusinessRegistration => TwoIncomplete(e, CompanyName, RegistrationNumber);
    case UboDeclaration => TwoIncomplete(e, CompanyName, BeneficialOwners);
    case UnknownType =>
  }

  /** A rule draws a flag on a document, of one severity or the other. */
  ghost predicate DrawsRule(lib: Library, settings: Settings, a: Applicant, e: ExtractionResult, rule: RuleId) {
    Draws(lib, settings, a, e, RuleFlag(rule, Critical)) || Draws(lib, settings, a, e, RuleFlag(rule, Warning))
  }

  ghost function OwnCount(lib: Library, settings: Settings, a: Applicant, e: ExtractionResult): nat {
    One(DrawsRule(lib, settings, a, e, NAME_MISMATCH))
    + One(DrawsRule(lib, settings, a, e, DOB_MISMATCH))
    + One(DrawsRule(lib, settings, a, e, DOC_EXPIRED))
    + One(DrawsRule(lib, settings, a, e, ADDRESS_MISMATCH))
    + One(DrawsRule(lib, settings, a, e, COMPANY_NAME_MISMATCH))
    + One(DrawsRule(lib, settings, a, e, REG_NUMBER_MISMATCH))
  }

  lemma NameCount(
    lib: Library, settings: Settings, declared: string, extracted: Option<string>, rule: RuleId, field: Field)
    ensures |CheckName(lib, settings, declared, extracted, rule, field).flags|
            == One(extracted.Some? && Similarity(lib, declared, extracted.value) < settings.nameWarning)
  {
  }

  lemma ExactCount(lib: Library, declared: Option<string>, extracted: Option<string>, rule: RuleId, field: Field)
    ensures |CheckExact(lib, declared, extracted, rule, field).flags|
            == One(declared.Some? && extracted.Some? && Normalize(lib, declared.value) != Normalize(lib, extracted.value))
  {
  }

  lemma IdentityCount(lib: Library, settings: Settings, a: Applicant, e: ExtractionResult)
    requires CalendarDates(lib) && Valid(settings.today) && e.docType == IdDocument
    ensures |IdentityVerdict(lib, settings, a, e).flags| == OwnCount(lib, settings, a, e)
  {
    NameCount(lib, settings, a.fullName, TextOf(e, FullName), NAME_MISMATCH, FullName);
    ExactCount(lib, DeclaredBirth(a), TextOf(e, DateOfBirth), DOB_MISMATCH, DateOfBirth);
    ExpiredExact(lib, settings.today, e);
  }

  lemma OtherCount(lib: Library, settings: Settings, a: Applicant, e: ExtractionResult)
    requires e.docType != IdDocument
    ensures |FieldVerdict(lib, settings, a, e).flags| == OwnCount(lib, settings, a, e)
  {
  }

  /** How many flags a document draws: one for each field it lacks, and one for each rule that
      finds something. */
  lemma FlagsCounted(lib: Library, settings: Settings, a: Applicant, e: ExtractionResult)
    requires CalendarDates(lib) && Valid(settings.today)
    ensures |DocumentVerdict(lib, settings, a, e).flags|
            == if e.error.Some? then 0 else Lacking(e) + OwnCount(lib, settings, a, e)
  {
    if e.error.None? {
      IncompleteCount(e);
      if e.docType == IdDocument {
        IdentityCount(lib, settings, a, e);
      } else {
        OtherCount(lib, settings, a, e);
      }
    }
  }

  // --- the checks, written out ---

  /** What a check on a readable document says. */
  predicate Says(lib: Library, settings: Settings, a: Applicant, e: ExtractionResult, c: FieldCheck) {
    match c.field
    case FullName => e.docType == IdDocument && c.declared == a.fullName && SaysName(lib, settings, e, c)
    case CompanyName =>
      && e.docType == BusinessRegistration && a.companyName.Some? && a.companyName.value != ""
      && c.declared == a.companyName.value && SaysName(lib, settings, e, c)
    case DateOfBirth =>
      e.docType == IdDocument && a.dateOfBirth.Some? && c.declared == Iso(a.dateOfBirth.value) && SaysExactly(lib, e, c)
    case RegistrationNumber =>
      e.docType == BusinessRegistration && a.registrationNumber == Some(c.declared) && SaysExactly(lib, e, c)
    case Address =>
      && e.docType == ProofOfAddress && c.declared == a.address
      && Address in e.text && c.extracted == Some(e.text[Address]) && !c.critical
      && (c.matches <==> Similarity(lib, c.declared, e.text[Address]) >= settings.addressMatch)
    case _ => false
  }

  /** A name matches from the warning threshold up, and is critical below the critical one; a
      missing name neither matches nor is critical. */
  predicate SaysName(lib: Library, settings: Settings, e: ExtractionResult, c: FieldCheck) {
    if c.field in e.text then
      var ratio := Similarity(lib, c.declared, e.text[c.field]);
      && c.extracted == Some(e.text[c.field])
      && (c.matches <==> ratio >= settings.nameWarning)
      && (c.critical <==> ratio < settings.nameWarning && ratio < settings.nameCritical)
    else c.extracted.None? && !c.matches && !c.critical
  }

  /** Other declared data are compared in normal form, and any difference is critical. */
  predicate SaysExactly(lib: Library, e: ExtractionResult, c: FieldCheck) {
    && c.field in e.text && c.extracted == Some(e.text[c.field])
    && (c.matches <==> Normalize(lib, c.declared) == Normalize(lib, e.text[c.field]))
    && (c.critical <==> !c.matches)
  }

  lemma IdentityChecks(lib: Library, settings: Settings, a: Applicant, e: ExtractionResult, c: FieldCheck)
    requires e.docType == IdDocument
    ensures c in IdentityVerdict(lib, settings, a, e).checks <==> Says(lib, settings, a, e, c)
    ensures |IdentityVerdict(lib, settings, a, e).checks| == 1 + One(a.dateOfBirth.Some? && DateOfBirth in e.text)
  {
    var name := CheckName(lib, settings, a.fullName, TextOf(e, FullName), NAME_MISMATCH, FullName);
    var birth := CheckExact(lib, DeclaredBirth(a), TextOf(e, DateOfBirth), DOB_MISMATCH, DateOfBirth);
    assert IdentityVerdict(lib, settings, a, e).checks == name.checks + birth.checks;
  }

  lemma RegistrationChecks(lib: Library, settings: Settings, a: Applicant, e: ExtractionResult, c: FieldCheck)
    requires e.docType == BusinessRegistration
    ensures c in RegistrationVerdict(lib, settings, a, e).checks <==> Says(lib, settings, a, e, c)
    ensures |RegistrationVerdict(lib, settings, a, e).checks|
            == One(a.companyName.Some? && a.companyName.value != "")
               + One(a.registrationNumber.Some? && RegistrationNumber in e.text)
  {
    var name := if a.companyName.Some? && a.companyName.value != "" then
        CheckName(lib, settings, a.companyName.value, TextOf(e, CompanyName), COMPANY_NAME_MISMATCH, CompanyName)
      else NOTHING;
    var number := CheckExact(lib, a.registrationNumber, TextOf(e, RegistrationNumber), REG_NUMBER_MISMATCH, RegistrationNumber);
    assert RegistrationVerdict(lib, settings, a, e).checks == name.checks + number.checks;
    NumberCheck(lib, settings, a, e, c);
    CompanyCheck(lib, settings, a, e, c);
  }

  lemma NumberCheck(lib: Library, settings: Settings, a: Applicant, e: ExtractionResult, c: FieldCheck)
    requires e.docType == BusinessRegistration
    ensures c in CheckExact(lib, a.registrationNumber, TextOf(e, RegistrationNumber), REG_NUMBER_MISMATCH, RegistrationNumber).checks
            <==> c.field == RegistrationNumber && Says(lib, settings, a, e, c)
  {
  }

  lemma CompanyCheck(lib: Library, settings: Settings, a: Applicant, e: ExtractionResult, c: FieldCheck)
    requires e.docType == BusinessRegistration
    ensures a.companyName.Some? && a.companyName.value != "" ==>
              (c in CheckName(lib, settings, a.companyName.value, TextOf(e, CompanyName), COMPANY_NAME_MISMATCH, CompanyName).checks
               <==> c.field == CompanyName && Says(lib, settings, a, e, c))
  {
  }

  lemma AddressChecks(lib: Library, settings: Settings, a: Applicant, e: ExtractionResult, c: FieldCheck)
    requires e.docType == ProofOfAddress
    ensures c in CheckAddress(lib, settings, a.address, TextOf(e, Address)).checks <==> Says(lib, settings, a, e, c)
    ensures |CheckAddress(lib, settings, a.address, TextOf(e, Address)).checks| == One(Address in e.text)
  {
  }

  /** The report of a document holds exactly these checks: name and birth date on an identity
      document, the address on a proof of address, company and number on a registration. */
  lemma ChecksExact(lib: Library, settings: Settings, a: Applicant, e: ExtractionResult, c: FieldCheck)
    ensures c in DocumentVerdict(lib, settings, a, e).checks <==> e.error.None? && Says(lib, settings, a, e, c)
  {
    if e.error.None? {
      assert [] + FieldVerdict(lib, settings, a, e).checks == FieldVerdict(lib, settings, a, e).checks;
      match e.docType
      case IdDocument => IdentityChecks(lib, settings, a, e, c);
      case BusinessRegistration => RegistrationChecks(lib, settings, a, e, c);
      case ProofOfAddress => AddressChecks(lib, settings, a, e, c);
      case _ =>
    }
  }
}

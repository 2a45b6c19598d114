/** The offline extractor and evaluator, and the reconciliation of a model's answer with
    the documents that were asked about. */
module Services {
  import opened Schemas
  import opened Text
  import opened Dates
  import opened GlitchMarkers

  // --- extraction ---

  function FieldsOf(t: DocumentType): seq<Field> {
    match t
    case IdDocument => [FullName, DateOfBirth, DocumentNumber, ExpiryDate, Nationality]
    case ProofOfAddress => [FullName, Address, IssueDate, Issuer]
    case BusinessRegistration =>
      [CompanyName, RegistrationNumber, RegistrationDate, LegalForm, RegisteredAddress]
    case UboDeclaration => [CompanyName]
    case UnknownType => []
  }

  datatype Slice = Slice(from: nat, to: nat)

  /** What the label and owner patterns match in a text. Nothing below depends on which
      slices a pattern picks. */
  datatype Patterns = Patterns(labelled: (string, Field) -> Option<Slice>, owners: string -> seq<Slice>)

  /** What a pattern picks: nothing if the bounds are off the text. */
  function Picked(t: string, s: Slice): string {
    if s.from <= s.to <= |t| then t[s.from..s.to] else ""
  }

  /** A matched value: the slice, stripped. */
  function Matched(lib: Library, t: string, s: Slice): (v: string)
    ensures Contains(t, v)
  {
    var slice := Picked(t, s);
    assert OccursAt(t, slice, if s.from <= s.to <= |t| then s.from else 0);
    ContainsTransitive(t, slice, Strip(lib, slice));
    Strip(lib, slice)
  }

  /** The value the extractor keeps for a field: the match, a date rewritten in ISO;
      nothing when no label matches or the date cannot be read. */
  function FieldValue(lib: Library, p: Patterns, t: string, f: Field): Option<string> {
    var found := p.labelled(t, f);
    if found.None? then None
    else if f in DATE_FIELDS then ParseDate(lib, Matched(lib, t, found.value))
    else Some(Matched(lib, t, found.value))
  }

  /** The text spells this date, in one of the two layouts. */
  predicate SpelledIn(t: string, d: Date) {
    Valid(d) && (Contains(t, Iso(d)) || Contains(t, Dotted(d)))
  }

  /** A value that comes from the text: found in it as it stands, or the ISO spelling of a
      date that the text spells. */
  ghost predicate FromText(t: string, f: Field, value: string) {
    if f in DATE_FIELDS then exists d :: SpelledIn(t, d) && value == Iso(d) else Contains(t, value)
  }

  /** All that an extraction reports comes from the text. */
  ghost predicate Copied(t: string, text: map<Field, string>, owners: seq<string>) {
    && (forall f :: f in text ==> FromText(t, f, text[f]))
    && forall name :: name in owners ==> Contains(t, name)
  }

  const FIELD_CONFIDENCE := 0.98

  lemma ParsedIsSpelled(lib: Library, t: string, raw: string) returns (d: Date)
    requires DateCharsPlain(lib) && Contains(t, raw) && ParseDate(lib, raw).Some?
    ensures SpelledIn(t, d) && ParseDate(lib, raw) == Some(Iso(d))
  {
    ParseDateExact(lib, raw);
    d :| Valid(d) && ParseDate(lib, raw).value == Iso(d) && (Strip(lib, raw) == Iso(d) || Strip(lib, raw) == Dotted(d));
    ContainsTransitive(t, raw, Strip(lib, raw));
  }

  lemma FieldValueFromText(lib: Library, p: Patterns, t: string, f: Field)
    requires DateCharsPlain(lib)
    requires FieldValue(lib, p, t, f).Some?
    ensures FromText(t, f, FieldValue(lib, p, t, f).value)
  {
    if f in DATE_FIELDS {
      var d := ParsedIsSpelled(lib, t, Matched(lib, t, p.labelled(t, f).value));
    }
  }

  /** The fields read off a text. */
  function Labelled(lib: Library, p: Patterns, t: string, fields: seq<Field>): map<Field, string> {
    if fields == [] then map[]
    else
      var f := fields[|fields| - 1];
      var before := Labelled(lib, p, t, fields[..|fields| - 1]);
      if FieldValue(lib, p, t, f).Some? then before[f := FieldValue(lib, p, t, f).value] else before
  }

  lemma {:induction false} LabelledExact(lib: Library, p: Patterns, t: string, fields: seq<Field>, f: Field)
    ensures f in Labelled(lib, p, t, fields) <==> f in fields && FieldValue(lib, p, t, f).Some?
    ensures f in Labelled(lib, p, t, fields) ==> FieldValue(lib, p, t, f) == Some(Labelled(lib, p, t, fields)[f])
  {
    if fields != [] {
      var front, last := fields[..|fields| - 1], fields[|fields| - 1];
      LabelledExact(lib, p, t, front, f);
      var before, value := Labelled(lib, p, t, front), FieldValue(lib, p, t, last);
      assert Labelled(lib, p, t, fields) == if value.Some? then before[last := value.value] else before;
      assert fields == front + [last];
    }
  }

  lemma LabelledStep(lib: Library, p: Patterns, t: string, fields: seq<Field>, i: nat)
    requires i < |fields|
    ensures var before, value := Labelled(lib, p, t, fields[..i]), FieldValue(lib, p, t, fields[i]);
            Labelled(lib, p, t, fields[..i + 1]) == if value.Some? then before[fields[i] := value.value] else before
  {
    assert fields[..i + 1][..i] == fields[..i];
  }

  /** The confidences kept for some fields: the same for each, and some if there is a field. */
  ghost predicate Rated(text: map<Field, string>, owners: seq<string>, confidences: seq<real>) {
    && (forall c :: c in confidences ==> c == FIELD_CONFIDENCE)
    && (|confidences| == 0 <==> text == map[] && owners == [])
  }

  lemma OneMoreRated(
    text: map<Field, string>, owners: seq<string>, confidences: seq<real>, f: Field, value: string, now: seq<string>)
    requires Rated(text, owners, confidences)
    ensures Rated(text[f := value], now, confidences + [FIELD_CONFIDENCE])
  {
    assert f in text[f := value];
  }

  method LabelledFields(lib: Library, p: Patterns, t: string, docType: DocumentType)
    returns (text: map<Field, string>, confidences: seq<real>)
    ensures text == Labelled(lib, p, t, FieldsOf(docType))
    ensures Rated(text, [], confidences)
  {
    text, confidences := map[], [];
    var fields := FieldsOf(docType);
    for i := 0 to |fields|
      invariant text == Labelled(lib, p, t, fields[..i])
      invariant Rated(text, [], confidences)
    {
      var f := fields[i];
      LabelledStep(lib, p, t, fields, i);
      var value := FieldValue(lib, p, t, f);
      if value.Some? {
        OneMoreRated(text, [], confidences, f, value.value, []);
        text := text[f := value.value];
        confidences := confidences + [FIELD_CONFIDENCE];
      }
    }
    assert fields[..|fields|] == fields;
  }

  function MatchedAll(lib: Library, t: string, slices: seq<Slice>): (r: seq<string>)
    ensures |r| == |slices|
    ensures forall v :: v in r ==> Contains(t, v)
  {
    if slices == [] then []
    else MatchedAll(lib, t, slices[..|slices| - 1]) + [Matched(lib, t, slices[|slices| - 1])]
  }

  method OwnerNames(lib: Library, p: Patterns, t: string) returns (owners: seq<string>)
    ensures owners == MatchedAll(lib, t, p.owners(t))
  {
    var found := p.owners(t);
    owners := [];
    for k := 0 to |found|
      invariant owners == MatchedAll(lib, t, found[..k])
    {
      assert found[..k + 1][..k] == found[..k];
      owners := owners + [Matched(lib, t, found[k])];
    }
    assert found[..|found|] == found;
  }

  function Overridden(lib: Library, claims: seq<Claim>, text: map<Field, string>): map<Field, string> {
    if claims == [] then text
    else
      var m := claims[|claims| - 1];
      Overridden(lib, claims[..|claims| - 1], text)[m.field := Strip(lib, m.value)]
  }

  /** What the last marker for a field claims. */
  function Claimed(lib: Library, claims: seq<Claim>, f: Field): Option<string> {
    if claims == [] then None
    else
      var m := claims[|claims| - 1];
      if m.field == f then Some(Strip(lib, m.value)) else Claimed(lib, claims[..|claims| - 1], f)
  }

  /** A claimed field is always reported, with the value of its last marker, whatever the
      text says; other fields keep what the text gave them. */
  lemma {:induction false} OverriddenExact(lib: Library, claims: seq<Claim>, text: map<Field, string>, f: Field)
    ensures f in Overridden(lib, claims, text) <==> f in text || Claimed(lib, claims, f).Some?
    ensures f in Overridden(lib, claims, text) ==>
              Overridden(lib, claims, text)[f]
              == if Claimed(lib, claims, f).Some? then Claimed(lib, claims, f).value else text[f]
  {
    if claims != [] {
      OverriddenExact(lib, claims[..|claims| - 1], text, f);
    }
  }

  lemma OverriddenStep(lib: Library, claims: seq<Claim>, text: map<Field, string>, i: nat)
    requires i < |claims|
    ensures Overridden(lib, claims[..i + 1], text)
            == Overridden(lib, claims[..i], text)[claims[i].field := Strip(lib, claims[i].value)]
    ensures Claimed(lib, claims[..i + 1], BeneficialOwners).Some?
            <==> claims[i].field == BeneficialOwners || Claimed(lib, claims[..i], BeneficialOwners).Some?
  {
    assert claims[..i + 1][..i] == claims[..i];
  }

  method ApplyMarkers(
    lib: Library, claims: seq<Claim>, text0: map<Field, string>, owners0: seq<string>, confidences0: seq<real>)
    returns (text: map<Field, string>, owners: seq<string>, confidences: seq<real>)
    requires Rated(text0, owners0, confidences0)
    ensures text == Overridden(lib, claims, text0)
    ensures owners == if Claimed(lib, claims, BeneficialOwners).Some? then [] else owners0
    ensures Rated(text, owners, confidences)
  {
    text, owners, confidences := text0, owners0, confidences0;
    for i := 0 to |claims|
      invariant text == Overridden(lib, claims[..i], text0)
      invariant owners == if Claimed(lib, claims[..i], BeneficialOwners).Some? then [] else owners0
      invariant Rated(text, owners, confidences)
    {
      OverriddenStep(lib, claims, text0, i);
      var f := claims[i].field;
      var value := Strip(lib, claims[i].value);
      OneMoreRated(text, owners, confidences, f, value, if f == BeneficialOwners then [] else owners);
      text := text[f := value];
      confidences := confidences + [FIELD_CONFIDENCE];
      if f == BeneficialOwners {
        owners := [];
      }
    }
    assert claims[..|claims|] == claims;
  }

  // --- the extraction, written out ---

  /** Which fields are looked for in which types of document. */
  predicate Reports(t: DocumentType, f: Field) {
    match f
    case FullName => t == IdDocument || t == ProofOfAddress
    case DateOfBirth => t == IdDocument
    case DocumentNumber => t == IdDocument
    case ExpiryDate => t == IdDocument
    case Nationality => t == IdDocument
    case Address => t == ProofOfAddress
    case IssueDate => t == ProofOfAddress
    case Issuer => t == ProofOfAddress
    case CompanyName => t == BusinessRegistration || t == UboDeclaration
    case RegistrationNumber => t == BusinessRegistration
    case RegistrationDate => t == BusinessRegistration
    case LegalForm => t == BusinessRegistration
    case RegisteredAddress => t == BusinessRegistration
    case _ => false
  }

  lemma ReportsExact(t: DocumentType, f: Field)
    ensures f in FieldsOf(t) <==> Reports(t, f)
  {
  }

  predicate IsDate(f: Field) {
    f == DateOfBirth || f == ExpiryDate || f == IssueDate || f == RegistrationDate
  }

  lemma IsDateExact(f: Field)
    ensures f in DATE_FIELDS <==> IsDate(f)
  {
  }

  /** A label gives this value for a field: what it picks, stripped, and a date in ISO. */
  ghost predicate Reads(lib: Library, p: Patterns, t: string, f: Field, value: string) {
    && p.labelled(t, f).Some?
    && var raw := Strip(lib, Picked(t, p.labelled(t, f).value));
    if IsDate(f) then exists d :: Valid(d) && (raw == Iso(d) || raw == Dotted(d)) && value == Iso(d)
    else value == raw
  }

  lemma FieldValueExact(lib: Library, p: Patterns, t: string, f: Field, value: string)
    requires DateCharsPlain(lib)
    ensures FieldValue(lib, p, t, f) == Some(value) <==> Reads(lib, p, t, f, value)
  {
    IsDateExact(f);
    if p.labelled(t, f).Some? && IsDate(f) {
      var raw := Matched(lib, t, p.labelled(t, f).value);
      StripIdempotent(lib, Picked(t, p.labelled(t, f).value));
      ParseDateExact(lib, raw);
      forall d | Valid(d) && (raw == Iso(d) || raw == Dotted(d))
        ensures ParseDate(lib, raw) == Some(Iso(d))
      {
        DateRoundTrip(lib, d);
      }
    }
  }

  ghost predicate ClaimsField(claims: seq<Claim>, f: Field) {
    exists c :: c in claims && c.field == f
  }

  /** The last claim for a field is number `k`. */
  ghost predicate LastClaim(claims: seq<Claim>, f: Field, k: int) {
    0 <= k < |claims| && claims[k].field == f && forall j :: k < j < |claims| ==> claims[j].field != f
  }

  lemma {:induction false} ClaimedNone(lib: Library, claims: seq<Claim>, f: Field)
    ensures Claimed(lib, claims, f).None? <==> !ClaimsField(claims, f)
  {
    if claims != [] {
      var front, last := claims[..|claims| - 1], claims[|claims| - 1];
      ClaimedNone(lib, front, f);
      assert claims == front + [last];
      assert last in claims;
    }
  }

  lemma {:induction false} ClaimedLast(lib: Library, claims: seq<Claim>, f: Field, k: int)
    requires LastClaim(claims, f, k)
    ensures Claimed(lib, claims, f) == Some(Strip(lib, claims[k].value))
  {
    var last := |claims| - 1;
    if k < last {
      ClaimedLast(lib, claims[..last], f, k);
    }
  }

  /** The last claim for a field counts, and there is none exactly if none is made. */
  lemma ClaimedExact(lib: Library, claims: seq<Claim>, f: Field)
    ensures Claimed(lib, claims, f).None? <==> !ClaimsField(claims, f)
    ensures forall k :: LastClaim(claims, f, k) ==> Claimed(lib, claims, f) == Some(Strip(lib, claims[k].value))
  {
    ClaimedNone(lib, claims, f);
    forall k | LastClaim(claims, f, k)
      ensures Claimed(lib, claims, f) == Some(Strip(lib, claims[k].value))
    {
      ClaimedLast(lib, claims, f, k);
    }
  }

  /** The text fields of an extraction. */
  function ExtractedText(lib: Library, p: Patterns, t: string, docType: DocumentType): map<Field, string> {
    Overridden(lib, Claims(t), Labelled(lib, p, t, FieldsOf(docType)))
  }

  /** A field that a marker claims has the value its last marker gives; any other is there if
      the type of document has it and a label gives a value, and then it is that value. */
  lemma ExtractedExact(lib: Library, p: Patterns, t: string, docType: DocumentType, f: Field)
    requires DateCharsPlain(lib)
    ensures var text := ExtractedText(lib, p, t, docType);
            if ClaimsField(Claims(t), f) then
              f in text && forall k :: LastClaim(Claims(t), f, k) ==> text[f] == Strip(lib, Claims(t)[k].value)
            else forall value :: f in text && text[f] == value <==> Reports(docType, f) && Reads(lib, p, t, f, value)
  {
    OverriddenExact(lib, Claims(t), Labelled(lib, p, t, FieldsOf(docType)), f);
    ClaimedExact(lib, Claims(t), f);
    LabelledExact(lib, p, t, FieldsOf(docType), f);
    ReportsExact(docType, f);
    forall value
      ensures FieldValue(lib, p, t, f) == Some(value) <==> Reads(lib, p, t, f, value)
    {
      FieldValueExact(lib, p, t, f, value);
    }
  }

  /** The owners of an extraction: on a declaration of owners, what the pattern picks, stripped,
      unless a marker claims that field. */
  ghost predicate OwnersRead(lib: Library, p: Patterns, t: string, docType: DocumentType, owners: seq<string>) {
    if docType == UboDeclaration && !ClaimsField(Claims(t), BeneficialOwners) then
      && |owners| == |p.owners(t)|
      && forall k :: 0 <= k < |owners| ==> owners[k] == Strip(lib, Picked(t, p.owners(t)[k]))
    else owners == []
  }

  lemma {:induction false} MatchedAllAt(lib: Library, t: string, slices: seq<Slice>, k: nat)
    requires k < |slices|
    ensures MatchedAll(lib, t, slices)[k] == Strip(lib, Picked(t, slices[k]))
  {
    if k < |slices| - 1 {
      MatchedAllAt(lib, t, slices[..|slices| - 1], k);
    }
  }

  lemma OwnersAreRead(lib: Library, p: Patterns, t: string, docType: DocumentType, owners: seq<string>)
    requires owners == if Claimed(lib, Claims(t), BeneficialOwners).Some? || docType != UboDeclaration then []
                       else MatchedAll(lib, t, p.owners(t))
    ensures OwnersRead(lib, p, t, docType, owners)
  {
    ClaimedExact(lib, Claims(t), BeneficialOwners);
    forall k | 0 <= k < |owners|
      ensures owners[k] == Strip(lib, Picked(t, p.owners(t)[k]))
    {
      MatchedAllAt(lib, t, p.owners(t), k);
    }
  }

  /** `FakeExtractor.extract`. It reports the labelled fields, overridden by the markers,
      and an error exactly when that leaves nothing; on a text without markers everything
      it reports is copied from the text, or spells a date of the text in ISO. */
  method Extract(lib: Library, p: Patterns, document: InputDocument, docType: DocumentType)
    returns (r: ExtractionResult)
    requires DateCharsPlain(lib)
    ensures r.id == document.id && r.docType == docType
    ensures r.text == ExtractedText(lib, p, document.text, docType)
    ensures OwnersRead(lib, p, document.text, docType, r.owners)
    ensures r.error.Some? <==> r.text == map[] && r.owners == []
    ensures Rated(r.text, r.owners, r.confidences)
    ensures Unmarked(document.text) ==> Copied(document.text, r.text, r.owners)
    ensures forall c :: c in r.confidences ==> c == 0.98
  {
    var t := document.text;
    var text, confidences := LabelledFields(lib, p, t, docType);
    var owners: seq<string> := [];
    if docType == UboDeclaration {
      owners := OwnerNames(lib, p, t);
      if owners != [] {
        confidences := confidences + [FIELD_CONFIDENCE];
      }
    }
    LabelledAreCopied(lib, p, t, docType, owners);
    text, owners, confidences := ApplyMarkers(lib, Claims(t), text, owners, confidences);
    OwnersAreRead(lib, p, t, docType, owners);
    if text == map[] && owners == [] {
      return ExtractionResult(document.id, docType, text, [], [], Some("unreadable document: no recognizable fields"));
    }
    return ExtractionResult(document.id, docType, text, owners, confidences, None);
  }

  lemma LabelledAreCopied(lib: Library, p: Patterns, t: string, docType: DocumentType, owners: seq<string>)
    requires DateCharsPlain(lib)
    requires forall v :: v in owners ==> Contains(t, v)
    ensures Copied(t, Labelled(lib, p, t, FieldsOf(docType)), owners)
  {
    var text := Labelled(lib, p, t, FieldsOf(docType));
    forall f | f in text
      ensures FromText(t, f, text[f])
    {
      LabelledExact(lib, p, t, FieldsOf(docType), f);
      FieldValueFromText(lib, p, t, f);
    }
  }

  // --- grounding ---

  predicate Grounded(lib: Library, source: string, value: string) {
    Contains(Normalize(lib, source), Normalize(lib, value))
  }

  /** What an evaluator reads: the text without the markers. */
  function Source(document: InputDocument): string {
    Remaining(document.text)
  }

  predicate UngroundedField(lib: Library, document: InputDocument, e: ExtractionResult, f: Field)
    requires f in e.text
  {
    f !in DATE_FIELDS && !Grounded(lib, Source(document), e.text[f])
  }

  /** The string fields that cannot be found in the document; dates are not looked for. */
  function UngroundedFields(lib: Library, document: InputDocument, e: ExtractionResult): set<Field> {
    set f | f in e.text && UngroundedField(lib, document, e, f)
  }

  predicate UngroundedOwner(lib: Library, document: InputDocument, name: string) {
    name != "" && !Grounded(lib, Source(document), name)
  }

  function UngroundedOwners(lib: Library, document: InputDocument, owners: seq<string>): nat {
    if owners == [] then 0
    else
      var last := |owners| - 1;
      UngroundedOwners(lib, document, owners[..last])
      + if UngroundedOwner(lib, document, owners[last]) then 1 else 0
  }

  const DISCREPANCY := RuleFlag(EVALUATOR_DISCREPANCY, Critical)

  lemma TakeOne<T>(bad: set<T>, left: set<T>, x: T)
    requires x in left
    ensures |bad - (left - {x})| == |bad - left| + if x in bad then 1 else 0
  {
    if x in bad {
      assert bad - (left - {x}) == (bad - left) + {x};
    } else {
      assert bad - (left - {x}) == bad - left;
    }
  }

  method CheckFields(lib: Library, document: InputDocument, e: ExtractionResult) returns (flags: seq<RuleFlag>)
    ensures forall f :: f in flags ==> f == DISCREPANCY
    ensures |flags| == |UngroundedFields(lib, document, e)|
  {
    flags := [];
    var fields := e.text.Keys;
    ghost var bad := UngroundedFields(lib, document, e);
    assert bad - fields == {};
    while fields != {}
      invariant fields <= e.text.Keys
      invariant forall f :: f in flags ==> f == DISCREPANCY
      invariant |flags| == |bad - fields|
      decreases fields
    {
      var f :| f in fields;
      TakeOne(bad, fields, f);
      if UngroundedField(lib, document, e, f) {
        flags := flags + [DISCREPANCY];
      }
      fields := fields - {f};
    }
    assert bad - fields == bad;
  }

  method CheckOwners(lib: Library, document: InputDocument, owners: seq<string>) returns (flags: seq<RuleFlag>)
    ensures forall f :: f in flags ==> f == DISCREPANCY
    ensures |flags| == UngroundedOwners(lib, document, owners)
  {
    flags := [];
    for i := 0 to |owners|
      invariant forall f :: f in flags ==> f == DISCREPANCY
      invariant |flags| == UngroundedOwners(lib, document, owners[..i])
    {
      assert owners[..i + 1][..i] == owners[..i];
      if UngroundedOwner(lib, document, owners[i]) {
        flags := flags + [DISCREPANCY];
      }
    }
    assert owners[..|owners|] == owners;
  }

  /** `FakeEvaluator.verify_grounding`: one critical discrepancy for each string field and
      each owner name that is not in the document, so it flags a document if and only if
      there is such a field or name. */
  method VerifyGrounding(lib: Library, document: InputDocument, e: ExtractionResult)
    returns (flags: seq<RuleFlag>)
    ensures forall f :: f in flags ==> f == DISCREPANCY
    ensures |flags| == |UngroundedFields(lib, document, e)| + UngroundedOwners(lib, document, e.owners)
    ensures flags != [] <==> Ungrounded(lib, document, e)
  {
    var fieldFlags := CheckFields(lib, document, e);
    var ownerFlags := CheckOwners(lib, document, e.owners);
    flags := fieldFlags + ownerFlags;
    UngroundedOwnersExist(lib, document, e.owners);
    ghost var bad := UngroundedFields(lib, document, e);
    assert |bad| != 0 <==> exists f :: f in bad;
    forall f | f in e.text
      ensures UngroundedField(lib, document, e, f) <==> !IsDate(f) && !Says(lib, document.text, e.text[f])
    {
      IsDateExact(f);
    }
  }

  /** A document says a value: its text without the markers has it, but for case and spacing. */
  ghost predicate Says(lib: Library, text: string, value: string) {
    Contains(Normalize(lib, Remaining(text)), Normalize(lib, value))
  }

  /** Some field that is not a date, or some owner's name, is not in the document. */
  ghost predicate Ungrounded(lib: Library, document: InputDocument, e: ExtractionResult) {
    || (exists f :: f in e.text && !IsDate(f) && !Says(lib, document.text, e.text[f]))
    || (exists name :: name in e.owners && name != "" && !Says(lib, document.text, name))
  }

  lemma {:induction false} UngroundedOwnersExist(lib: Library, document: InputDocument, owners: seq<string>)
    ensures UngroundedOwners(lib, document, owners) > 0
            <==> exists name :: name in owners && UngroundedOwner(lib, document, name)
  {
    if owners != [] {
      var front, last := owners[..|owners| - 1], owners[|owners| - 1];
      UngroundedOwnersExist(lib, document, front);
      assert owners == front + [last];
      if UngroundedOwners(lib, document, front) > 0 {
        var name :| name in front && UngroundedOwner(lib, document, name);
        assert name in owners;
      } else if UngroundedOwner(lib, document, last) {
        assert last in owners;
      }
    }
  }

  /** What is copied from a text without markers is grounded in it, so the extractor's own
      output never draws a discrepancy. */
  lemma CopiedIsGrounded(lib: Library, document: InputDocument, e: ExtractionResult)
    requires Unmarked(document.text)
    requires Copied(document.text, e.text, e.owners)
    ensures UngroundedFields(lib, document, e) == {} && UngroundedOwners(lib, document, e.owners) == 0
  {
    var t := document.text;
    UnmarkedRemains(t);
    forall f | f in e.text && f !in DATE_FIELDS
      ensures Grounded(lib, t, e.text[f])
    {
      NormalizedSlice(lib, t, e.text[f]);
    }
    forall name | name in e.owners
      ensures Grounded(lib, t, name)
    {
      NormalizedSlice(lib, t, name);
    }
    UngroundedOwnersExist(lib, document, e.owners);
  }

  /** Extract, then evaluate: on a document without markers nothing is flagged, for every
      choice of label and owner patterns. */
  method ExtractThenVerify(lib: Library, p: Patterns, document: InputDocument, docType: DocumentType)
    returns (flags: seq<RuleFlag>)
    requires DateCharsPlain(lib)
    ensures Unmarked(document.text) ==> flags == []
    ensures forall f :: f in flags ==> f == DISCREPANCY
  {
    var e := Extract(lib, p, document, docType);
    flags := VerifyGrounding(lib, document, e);
    if Unmarked(document.text) {
      CopiedIsGrounded(lib, document, e);
    }
  }

  /** A document whose only marker is `name`=`value`, between `a` and `b`. */
  ghost predicate OneMarker(text: string, a: string, name: string, value: string, b: string) {
    && text == a + MarkerText(name, value) + b
    && IsMarker(name, value) && LeadsUpTo(a, name, value, b) && Unmarked(b)
  }

  lemma OneMarkerClaims(lib: Library, text: string, a: string, name: string, value: string, b: string)
    requires OneMarker(text, a, name, value, b)
    ensures Claims(text) == [Claim(FieldNamed(name), value)] && Remaining(text) == a + (" " + b)
  {
    FirstMarker(a, name, value, b);
    UnmarkedRemains(b);
    assert Claims(b) == [];
  }

  /** A hallucination is caught: what a marker claims and the rest of the document does not say
      draws a discrepancy, unless it is about a date. */
  method GlitchIsCaught(
    lib: Library, p: Patterns, document: InputDocument, docType: DocumentType,
    ghost a: string, ghost name: string, ghost value: string, ghost b: string)
    returns (flags: seq<RuleFlag>)
    requires DateCharsPlain(lib)
    requires OneMarker(document.text, a, name, value, b) && !IsDate(FieldNamed(name))
    requires !Contains(Normalize(lib, a + (" " + b)), Normalize(lib, Strip(lib, value)))
    ensures flags != [] && forall f :: f in flags ==> f == DISCREPANCY
  {
    var e := Extract(lib, p, document, docType);
    flags := VerifyGrounding(lib, document, e);
    ghost var f := FieldNamed(name);
    OneMarkerClaims(lib, document.text, a, name, value, b);
    ExtractedExact(lib, p, document.text, docType, f);
    assert Claim(f, value) in Claims(document.text);
    assert LastClaim(Claims(document.text), f, 0);
    assert f in e.text && !Says(lib, document.text, e.text[f]);
  }

  /** An expiry date extracted from a text without markers is one the rules can parse, if
      the library parses ISO strings. */
  lemma CopiedExpiryParses(lib: Library, t: string, text: map<Field, string>, owners: seq<string>)
    requires forall d :: Valid(d) ==> lib.fromIso(Iso(d)) == Some(d)
    requires Copied(t, text, owners) && ExpiryDate in text
    ensures lib.fromIso(text[ExpiryDate]).Some?
  {
    assert FromText(t, ExpiryDate, text[ExpiryDate]);
  }

  // --- classification ---

  datatype Classification = Classification(id: string, docType: DocumentType, confidence: real)

  /** The last entry of the answer for a document, as a dictionary keeps it. */
  function Lookup(answer: seq<Classification>, id: string): (r: Option<Classification>)
    ensures r.Some? ==> r.value in answer && r.value.id == id
    ensures r.None? <==> forall c :: c in answer ==> c.id != id
  {
    if answer == [] then None
    else
      var last := |answer| - 1;
      assert answer == answer[..last] + [answer[last]];
      if answer[last].id == id then Some(answer[last]) else Lookup(answer[..last], id)
  }

  function ClassifyOne(answer: seq<Classification>, document: InputDocument): ClassifiedDocument {
    var item := Lookup(answer, document.id);
    if item.Some? then ClassifiedDocument(document.id, item.value.docType, item.value.confidence)
    else ClassifiedDocument(document.id, UnknownType, 0.0)
  }

  lemma {:induction false} LookupLast(answer: seq<Classification>, id: string, k: nat)
    requires k < |answer| && answer[k].id == id && forall j :: k < j < |answer| ==> answer[j].id != id
    ensures Lookup(answer, id) == Some(answer[k])
  {
    var last := |answer| - 1;
    if k < last {
      assert answer[last].id != id;
      LookupLast(answer[..last], id, k);
    }
  }

  /** A document is classified by the last entry for it, and is UNKNOWN without one. */
  lemma LastEntryCounts(answer: seq<Classification>, document: InputDocument, k: nat)
    ensures k < |answer| && answer[k].id == document.id && (forall j :: k < j < |answer| ==> answer[j].id != document.id) ==>
              ClassifyOne(answer, document) == ClassifiedDocument(document.id, answer[k].docType, answer[k].confidence)
    ensures (forall c :: c in answer ==> c.id != document.id) ==>
              ClassifyOne(answer, document) == ClassifiedDocument(document.id, UnknownType, 0.0)
  {
    if k < |answer| && answer[k].id == document.id && (forall j :: k < j < |answer| ==> answer[j].id != document.id) {
      LookupLast(answer, document.id, k);
    }
  }

  /** The result of `LiveRouter.classify` as a function of the model's answer. */
  function Reconcile(documents: seq<InputDocument>, answer: seq<Classification>): (r: seq<ClassifiedDocument>)
  {
    seq(|documents|, i requires 0 <= i < |documents| => ClassifyOne(answer, documents[i]))
  }

  method Classify(documents: seq<InputDocument>, answer: seq<Classification>)
    returns (classified: seq<ClassifiedDocument>)
    ensures classified == Reconcile(documents, answer)
  {
    classified := [];
    for i := 0 to |documents|
      invariant |classified| == i
      invariant forall j :: 0 <= j < i ==> classified[j] == ClassifyOne(answer, documents[j])
    {
      classified := classified + [ClassifyOne(answer, documents[i])];
    }
  }

  /** Any model answer becomes one classification per document, in order; a document the
      answer leaves out is UNKNOWN, and the others carry a type the model gave them. */
  lemma ReconcileComplete(documents: seq<InputDocument>, answer: seq<Classification>)
    ensures var r := Reconcile(documents, answer);
            && |r| == |documents|
            && forall i :: 0 <= i < |r| ==>
                 && r[i].id == documents[i].id
                 && ((forall c :: c in answer ==> c.id != documents[i].id) ==> r[i].docType == UnknownType)
                 && (r[i].docType != UnknownType ==>
                       exists c :: c in answer && c.id == documents[i].id && c.docType == r[i].docType)
  {
    var r := Reconcile(documents, answer);
    forall i | 0 <= i < |r|
      ensures r[i] == ClassifyOne(answer, documents[i])
      ensures r[i].docType != UnknownType ==>
                exists c :: c in answer && c.id == documents[i].id && c.docType == r[i].docType
    {
      var item := Lookup(answer, documents[i].id);
      if item.Some? { assert item.value in answer; }
    }
  }
}

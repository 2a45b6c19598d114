/** Data shared by every step: documents, the declared applicant, extraction and
    decision records, and the settings of a run. */
module Schemas {

  datatype Option<+T> = None | Some(value: T)

  datatype Date = Date(year: nat, month: nat, day: nat)

  function One(condition: bool): nat {
    if condition then 1 else 0
  }

  // --- documents ---

  datatype DocumentType =
    | IdDocument
    | ProofOfAddress
    | BusinessRegistration
    | UboDeclaration
    | UnknownType

  /** The keys of an extraction. `OtherField` covers keys outside the schemas. */
  datatype Field =
    | FullName | DateOfBirth | DocumentNumber | ExpiryDate | Nationality
    | Address | IssueDate | Issuer
    | CompanyName | RegistrationNumber | RegistrationDate | LegalForm | RegisteredAddress
    | BeneficialOwners
    | OtherField(name: string)

  datatype InputDocument = InputDocument(id: string, text: string)

  datatype ClassifiedDocument = ClassifiedDocument(id: string, docType: DocumentType, confidence: real)

  const DATE_FIELDS: set<Field> := {DateOfBirth, ExpiryDate, IssueDate, RegistrationDate}

  function RequiredFields(t: DocumentType): seq<Field> {
    match t
    case IdDocument => [FullName, DateOfBirth, DocumentNumber, ExpiryDate]
    case ProofOfAddress => [FullName, Address]
    case BusinessRegistration => [CompanyName, RegistrationNumber]
    case UboDeclaration => [CompanyName, BeneficialOwners]
    case UnknownType => []
  }

  // --- the case ---

  datatype CustomerType = Individual | Business

  datatype CaseStatus = Received | Processing | AwaitingHumanReview | Completed | Failed

  datatype Applicant = Applicant(
    fullName: string,
    dateOfBirth: Option<Date>,
    address: string,
    companyName: Option<string>,
    registrationNumber: Option<string>,
    monthlyVolume: real)

  datatype Package = Package(customer: CustomerType, applicant: Applicant, documents: seq<InputDocument>)

  function RequiredDocuments(c: CustomerType): set<DocumentType> {
    match c
    case Individual => {IdDocument, ProofOfAddress}
    case Business => {BusinessRegistration, UboDeclaration}
  }

  datatype Settings = Settings(
    maxStepRetries: nat,
    confidence: real,
    highVolumeIndividual: real,
    highVolumeBusiness: real,
    nameCritical: real,
    nameWarning: real,
    addressMatch: real,
    today: Date,
    evaluatorEnabled: bool)

  /** What one run is about: the case, its package, and the settings in force. */
  datatype Inputs = Inputs(caseId: string, package: Package, settings: Settings)

  // --- flags and decisions ---

  datatype RuleId =
    | INCOMPLETE_PACKAGE | DOC_EXPIRED | NAME_MISMATCH | DOB_MISMATCH | ADDRESS_MISMATCH
    | COMPANY_NAME_MISMATCH | REG_NUMBER_MISMATCH | EXTRACTION_INCOMPLETE | EVALUATOR_DISCREPANCY
    | SANCTIONS_HIT | PEP_MATCH | HIGH_VOLUME | LOW_CONFIDENCE | CRITICAL_MISMATCH
    | REGISTRY_UNAVAILABLE | UBO_SANCTIONS_OR_PEP
    | DOCUMENT_EXPIRED | ALL_CHECKS_PASSED | DEGRADED_TO_MANUAL | UNREADABLE_DOCUMENT

  datatype Severity = Warning | Critical

  datatype RuleFlag = RuleFlag(rule: RuleId, severity: Severity)

  datatype FieldCheck = FieldCheck(
    field: Field, declared: string, extracted: Option<string>, matches: bool, critical: bool)

  /** `text` holds the string-valued fields, `owners` the names in the
      beneficial-owner list ("" for an entry without a name), `confidences` the
      values of the per-field confidence dictionary. */
  datatype ExtractionResult = ExtractionResult(
    id: string,
    docType: DocumentType,
    text: map<Field, string>,
    owners: seq<string>,
    confidences: seq<real>,
    error: Option<string>)

  datatype ValidationReport = ValidationReport(
    checks: seq<FieldCheck>, flags: seq<RuleFlag>, confidence: real)

  datatype Registry = Sanctions | Pep

  datatype RegistryHit = RegistryHit(registry: Registry, name: string, score: real, entry: string)

  datatype RiskLevel = Low | Medium | High

  /** A narrated text, or the summary built from the triggers when narration fails. */
  datatype Rationale = Narrated(text: string) | Summary(triggers: seq<RuleFlag>)

  datatype RiskAssessment = RiskAssessment(
    level: RiskLevel,
    triggers: seq<RuleFlag>,
    sanctionsHits: seq<RegistryHit>,
    pepHits: seq<RegistryHit>,
    rationale: Rationale)

  datatype Outcome = Approve | Reject | Escalate

  datatype DecidedBy = System | Human

  datatype Decision = Decision(
    outcome: Outcome, decidedBy: DecidedBy, codes: seq<RuleId>, reviewer: Option<string>)

  /** Names of the steps that keep a retry count. */
  datatype StepName =
    | RouterStep
    | WorkerStep(documentId: string)
    | ValidatorStep
    | ScreeningStep(registry: Registry)
    | NarratorStep

  datatype ProcessingError = ProcessingError(
    node: StepName, kind: string, message: string, attempt: nat)

  datatype DegradedReason =
    | UnclassifiableDocument(id: string)
    | RouterFailed
    | ExtractionFailed(id: string)
    | UnreadableDocument(id: string, error: string)
    | ValidatorFailed
}

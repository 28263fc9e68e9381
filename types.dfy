/** Shapes of the values the property-verification front end and its
    analysis route exchange (src/types.ts). These records carry no
    behaviour of their own. */
module Types {

  datatype Option<+T> = None | Some(value: T)

  /** The four risk categories; they name both a RiskFactor's type and the
      keys of a result's category scores. */
  datatype Category = Legal | Financial | Structural | Ownership

  datatype Severity = Low | Medium | High

  /** A document's extraction status. Only Pending and Completed are ever
      assigned by the session; the other two exist in the type. */
  datatype Status = Pending | Processing | Completed | Error

  datatype OwnershipEvent = OwnershipEvent(year: string, event: string, party: string, details: string)

  datatype RiskFactor = RiskFactor(kind: Category, severity: Severity, description: string, recommendation: string)

  /** Scores are JavaScript numbers; they are modelled as reals. */
  datatype CategoryScores = CategoryScores(legal: real, financial: real, structural: real, ownership: real)

  datatype VerificationResult = VerificationResult(
    propertySummary: string,
    ownershipTimeline: seq<OwnershipEvent>,
    risks: seq<RiskFactor>,
    riskScore: real,
    categoryScores: CategoryScores,
    legalStatus: string,
    surveyDetails: string)

  /** The ciphertext the browser keeps beside a document; its bytes are
      opaque to this model. */
  type Bytes = seq<bv8>

  /** An uploaded document. `content` and `encryptedContent` are absent
      until the file's read has completed. */
  datatype PropertyDocument = PropertyDocument(
    id: string,
    name: string,
    mimeType: string,
    size: nat,
    content: Option<string>,
    encryptedContent: Option<Bytes>,
    status: Status)

  /** The score stored under a category's key. */
  function ScoreOf(scores: CategoryScores, c: Category): real
  {
    match c
    case Legal => scores.legal
    case Financial => scores.financial
    case Structural => scores.structural
    case Ownership => scores.ownership
  }

  /** The category's key as the JSON report spells it. */
  function CategoryName(c: Category): string
  {
    match c
    case Legal => "Legal"
    case Financial => "Financial"
    case Structural => "Structural"
    case Ownership => "Ownership"
  }
}

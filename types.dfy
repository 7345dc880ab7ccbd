/** The shared record shapes of the portal (types.ts).

    Every string-literal union of the source becomes a closed datatype, so a
    value outside the listed literals cannot be built. Each such datatype
    carries `Literal()`, the string JavaScript holds at run time, and a
    `...FromLiteral` function that recognises exactly those strings.
    Optional fields (`field?: T`) become `Option<T>`; `Date` values become
    integer clock readings (milliseconds). */
module Types {

  datatype Option<+T> = None | Some(value: T) {
    /** `x || fallback` for a value that is never falsy when present. */
    function GetOr(fallback: T): T {
      match this
      case Some(v) => v
      case None => fallback
    }
  }

  datatype Result<+T, +E> = Ok(value: T) | Err(error: E)

  /** A remote call that did not complete (network, credential or server
      error), or a decoding call whose `JSON.parse` threw on the reply
      (`GeminiService.Decode`'s `SyntaxError`, as `classifyQuery` lets it
      reach the `catch` of `handleClassify`): the screens do not tell these
      apart. */
  datatype Failure = RequestFailed

  // ---------------------------------------------------------------------
  // Closed string-literal unions
  // ---------------------------------------------------------------------

  /** `Message.role`: 'user' | 'assistant'. */
  datatype Role = User | Assistant {
    function Literal(): string {
      match this
      case User => "user"
      case Assistant => "assistant"
    }
  }

  function RoleFromLiteral(s: string): (r: Option<Role>)
    ensures r.Some? <==> s == "user" || s == "assistant"
    ensures r.Some? ==> r.value.Literal() == s
    ensures forall role: Role :: role.Literal() == s ==> r == Some(role)
  {
    if s == "user" then Some(User)
    else if s == "assistant" then Some(Assistant)
    else None
  }

  /** `Grievance.status`: 'Open' | 'Resolved' | 'Escalated'. */
  datatype GrievanceStatus = Open | Resolved | Escalated {
    function Literal(): string {
      match this
      case Open => "Open"
      case Resolved => "Resolved"
      case Escalated => "Escalated"
    }
  }

  function GrievanceStatusFromLiteral(s: string): (r: Option<GrievanceStatus>)
    ensures r.Some? <==> s == "Open" || s == "Resolved" || s == "Escalated"
    ensures r.Some? ==> r.value.Literal() == s
    ensures forall st: GrievanceStatus :: st.Literal() == s ==> r == Some(st)
  {
    if s == "Open" then Some(Open)
    else if s == "Resolved" then Some(Resolved)
    else if s == "Escalated" then Some(Escalated)
    else None
  }

  /** `ClassificationResult.priority` and `RejectionPrediction.riskLevel`:
      both are 'Low' | 'Medium' | 'High'. */
  datatype Level = Low | Medium | High {
    function Literal(): string {
      match this
      case Low => "Low"
      case Medium => "Medium"
      case High => "High"
    }
  }

  function LevelFromLiteral(s: string): (r: Option<Level>)
    ensures r.Some? <==> s == "Low" || s == "Medium" || s == "High"
    ensures r.Some? ==> r.value.Literal() == s
    ensures forall l: Level :: l.Literal() == s ==> r == Some(l)
  {
    if s == "Low" then Some(Low)
    else if s == "Medium" then Some(Medium)
    else if s == "High" then Some(High)
    else None
  }

  /** `WelfareBenefit.status`: 'Active' | 'Pending' | 'Paused'. */
  datatype BenefitStatus = Active | Pending | Paused {
    function Literal(): string {
      match this
      case Active => "Active"
      case Pending => "Pending"
      case Paused => "Paused"
    }
  }

  function BenefitStatusFromLiteral(s: string): (r: Option<BenefitStatus>)
    ensures r.Some? <==> s == "Active" || s == "Pending" || s == "Paused"
    ensures r.Some? ==> r.value.Literal() == s
    ensures forall st: BenefitStatus :: st.Literal() == s ==> r == Some(st)
  {
    if s == "Active" then Some(BenefitStatus.Active)
    else if s == "Pending" then Some(BenefitStatus.Pending)
    else if s == "Paused" then Some(Paused)
    else None
  }

  /** `ServiceRequest.status`: 'Pending' | 'Processed'. */
  datatype RequestStatus = Pending | Processed {
    function Literal(): string {
      match this
      case Pending => "Pending"
      case Processed => "Processed"
    }
  }

  function RequestStatusFromLiteral(s: string): (r: Option<RequestStatus>)
    ensures r.Some? <==> s == "Pending" || s == "Processed"
    ensures r.Some? ==> r.value.Literal() == s
    ensures forall st: RequestStatus :: st.Literal() == s ==> r == Some(st)
  {
    if s == "Pending" then Some(RequestStatus.Pending)
    else if s == "Processed" then Some(Processed)
    else None
  }

  // ---------------------------------------------------------------------
  // Records
  // ---------------------------------------------------------------------

  datatype Message = Message(id: string, role: Role, content: string, timestamp: int)

  /** Every field is optional (`Partial`-like by declaration). */
  datatype UserProfile = UserProfile(
    fullName: Option<string>,
    dateOfBirth: Option<string>,
    gender: Option<string>,
    state: Option<string>,
    district: Option<string>,
    aadhaarMasked: Option<string>,
    hasDocument: Option<bool>)

  /** `{}`: the profile with no field present. */
  const EmptyProfile: UserProfile := UserProfile(None, None, None, None, None, None, None)

  datatype Scheme = Scheme(
    id: string,
    name: string,
    description: string,
    eligibility: seq<string>,
    benefits: string,
    officialLink: string)

  datatype ClassificationResult = ClassificationResult(
    category: string,
    priority: Level,
    department: string,
    urgencyReason: string)

  datatype Grievance = Grievance(
    id: string,
    subject: string,
    description: string,
    department: string,
    status: GrievanceStatus,
    createdAt: int,
    aiClassification: Option<ClassificationResult>)

  datatype WelfareBenefit = WelfareBenefit(
    id: string,
    name: string,
    amount: Option<string>,
    status: BenefitStatus,
    lastDisbursement: Option<string>)

  datatype FormAnalysis = FormAnalysis(
    purpose: string,
    requirements: seq<string>,
    deadlines: string,
    commonMistakes: seq<string>,
    simplifiedExplanation: string)

  datatype ServiceDetailInfo = ServiceDetailInfo(
    summary: string,
    features: seq<string>,
    steps: seq<string>,
    aiInsight: string,
    processingTime: string,
    checklist: seq<string>)

  /** `approvalProbability` is a JavaScript number; it is modelled as a real
      (no rounding). */
  datatype RejectionPrediction = RejectionPrediction(
    approvalProbability: real,
    riskLevel: Level,
    redFlags: seq<string>,
    mitigationSteps: seq<string>,
    aiAnalystNote: string)

  datatype ServiceRequest = ServiceRequest(
    id: string,
    subject: string,
    classification: Option<ClassificationResult>,
    status: RequestStatus,
    createdAt: int)

  datatype GenericFormDraft = GenericFormDraft(
    formSubject: string,
    applicationType: string,
    fullName: string,
    fatherName: string,
    dateOfBirth: string,
    address: string,
    aiVerificationNote: string)
}

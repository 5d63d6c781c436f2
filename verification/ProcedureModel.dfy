/** The values the procedure kernel works on: definitions, session state, commands, events. */
module ProcedureModel {
  import opened BusinessCalendar

  datatype Option<+T> = None | Some(value: T)

  // `day` is the day number the date converts to; `ok` says whether it is a real calendar date.
  datatype LegalDate = LegalDate(day: int, ok: bool)

  datatype LegalTime = LegalTime(instant: int, courtDate: LegalDate)

  // `canonical` stands for the checks on the texts of a canonical reference.
  datatype Provenance = Provenance(canonical: bool)

  datatype AuthorityRef = AuthorityRef(
    id: string, citation: string, sourceVersion: string, proposition: string, provenance: Option<Provenance>)

  datatype AuthorityBasis = AuthorityBasis(primary: AuthorityRef, supporting: seq<AuthorityRef>)

  datatype InitiatingFilingRule = InitiatingFilingRule(
    filingType: string,
    authorizedRoles: seq<string>,
    requiredFields: seq<string>,
    cureDeadline: CureDeadlineRule,
    filingAuthority: AuthorityBasis,
    actorAuthority: AuthorityBasis,
    deficiencyAuthority: AuthorityBasis)

  datatype Procedure = Procedure(id: string, holidays: seq<LegalDate>, rule: InitiatingFilingRule)

  datatype CaseActor = CaseActor(id: string, role: string)

  datatype Case = Case(id: string, procedureId: string, actors: seq<CaseActor>)

  datatype Phase = AwaitingInitiatingFiling | DeficiencyPending | Docketed

  datatype PendingDeficiency = PendingDeficiency(submissionId: string, cureDeadline: LegalDate,
                                                 missingFields: seq<string>)

  datatype AcceptedFiling = AcceptedFiling(
    submissionId: string, actorId: string, filingType: string, documentSha256: string, docketSequence: nat)

  datatype Session = Session(
    id: string,
    procedureId: string,
    caseId: string,
    phase: Phase,
    nextDocketSequence: nat,
    pendingDeficiency: Option<PendingDeficiency>,
    acceptedFiling: Option<AcceptedFiling>,
    decidedSubmissions: seq<string>)

  datatype SubmittedField = SubmittedField(id: string, value: string)

  datatype SubmitFiling = SubmitFiling(
    sessionId: string,
    submissionId: string,
    actorId: string,
    filingType: string,
    submittedAt: LegalTime,
    documentSha256: string,
    fields: seq<SubmittedField>)

  datatype RejectionReason =
    | UnauthorizedActor
    | WrongFilingType
    | CureDeadlineExpired
    | DeficiencyNotCured
    | ProceedingAlreadyDocketed

  datatype LegalEvent =
    | FilingAccepted(
        sessionId: string, submissionId: string, actorId: string, filingType: string, submittedAt: LegalTime,
        documentSha256: string, docketSequence: nat, authority: AuthorityBasis)
    | FilingDeficiencyIssued(
        sessionId: string, submissionId: string, actorId: string, filingType: string, submittedAt: LegalTime,
        documentSha256: string, missingFields: seq<string>, cureDeadline: LegalDate, docketSequence: nat,
        authority: AuthorityBasis)
    | FilingRejected(
        sessionId: string, submissionId: string, actorId: string, filingType: string, submittedAt: LegalTime,
        reason: RejectionReason, authority: AuthorityBasis)

  datatype ErrorCode =
    | InvalidDefinition
    | MissingAuthority
    | InvalidCase
    | InvalidSession
    | InvalidCommand
    | DuplicateSubmission
    | UnknownActor
    | InvalidEvent
    | InvalidTransition

  datatype Result<+T> = Ok(value: T) | Err(error: ErrorCode)
}

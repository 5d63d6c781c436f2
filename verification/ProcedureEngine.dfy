/** The procedure kernel: what a filing command leads to, and how a session follows its events. */
module ProcedureEngine {
  import opened BusinessCalendar
  import opened ProcedureModel
  import opened Sorting

  const MAXIMUM_SUPPORTING_AUTHORITIES := 32
  const UINT64_LIMIT := 0x1_0000_0000_0000_0000

  // ---------------------------------------------------------------------------------------
  // Validation
  // ---------------------------------------------------------------------------------------

  predicate HasDuplicates(s: seq<string>) {
    exists i, j :: 0 <= i < j < |s| && s[i] == s[j]
  }

  predicate ValidAuthorityRef(a: AuthorityRef) {
    && a.id != "" && a.citation != "" && a.sourceVersion != "" && a.proposition != ""
    && (a.provenance.Some? ==> a.provenance.value.canonical)
  }

  predicate ValidAuthority(basis: AuthorityBasis) {
    && ValidAuthorityRef(basis.primary)
    && |basis.supporting| <= MAXIMUM_SUPPORTING_AUTHORITIES
    && (forall a :: a in basis.supporting ==>
          a.provenance.Some? == basis.primary.provenance.Some? && ValidAuthorityRef(a))
    && !HasDuplicates(AuthorityIds(basis))
  }

  function AuthorityIds(basis: AuthorityBasis): seq<string> {
    [basis.primary.id]
    + seq(|basis.supporting|, i requires 0 <= i < |basis.supporting| => basis.supporting[i].id)
  }

  predicate IsDigestCharacter(c: char) {
    '0' <= c <= '9' || 'a' <= c <= 'f'
  }

  predicate ValidDigest(digest: string) {
    |digest| == 64 && forall c :: c in digest ==> IsDigestCharacter(c)
  }

  function ActorIds(actors: seq<CaseActor>): seq<string> {
    seq(|actors|, i requires 0 <= i < |actors| => actors[i].id)
  }

  function FieldIds(fields: seq<SubmittedField>): seq<string> {
    seq(|fields|, i requires 0 <= i < |fields| => fields[i].id)
  }

  predicate InvalidRule(procedure: Procedure) {
    var rule := procedure.rule;
    || procedure.id == "" || rule.filingType == "" || rule.authorizedRoles == [] || rule.cureDeadline.days == 0
    || (exists h :: h in procedure.holidays && !h.ok)
    || "" in rule.authorizedRoles || "" in rule.requiredFields
    || HasDuplicates(rule.authorizedRoles) || HasDuplicates(rule.requiredFields)
  }

  function Validate(procedure: Procedure, case_: Case, session: Session): Result<()> {
    var rule := procedure.rule;
    if InvalidRule(procedure) then Err(InvalidDefinition)
    else if !ValidAuthority(rule.filingAuthority) || !ValidAuthority(rule.actorAuthority)
            || !ValidAuthority(rule.deficiencyAuthority) then Err(MissingAuthority)
    else if rule.actorAuthority.primary.provenance.Some? != rule.filingAuthority.primary.provenance.Some?
            || rule.deficiencyAuthority.primary.provenance.Some? != rule.filingAuthority.primary.provenance.Some?
    then Err(MissingAuthority)
    else if case_.id == "" || case_.procedureId != procedure.id || case_.actors == []
            || HasDuplicates(ActorIds(case_.actors)) then Err(InvalidCase)
    else if session.id == "" || session.procedureId != procedure.id || session.caseId != case_.id
            || session.nextDocketSequence == 0 then Err(InvalidSession)
    else Ok(())
  }

  // ---------------------------------------------------------------------------------------
  // Lookups
  // ---------------------------------------------------------------------------------------

  function RoleIn(actors: seq<CaseActor>, actorId: string): (role: Option<string>) {
    if actors == [] then None
    else if actors[0].id == actorId then Some(actors[0].role)
    else RoleIn(actors[1..], actorId)
  }

  predicate IsAuthorizedActor(procedure: Procedure, case_: Case, actorId: string) {
    var role := RoleIn(case_.actors, actorId);
    role.Some? && role.value in procedure.rule.authorizedRoles
  }

  function ExpectedAuthority(rule: InitiatingFilingRule, reason: RejectionReason): AuthorityBasis {
    match reason
    case UnauthorizedActor => rule.actorAuthority
    case CureDeadlineExpired => rule.deficiencyAuthority
    case DeficiencyNotCured => rule.deficiencyAuthority
    case WrongFilingType => rule.filingAuthority
    case ProceedingAlreadyDocketed => rule.filingAuthority
  }

  function HolidayDays(procedure: Procedure): Holidays {
    seq(|procedure.holidays|, i requires 0 <= i < |procedure.holidays| => procedure.holidays[i].day)
  }

  function CureDeadlineFrom(procedure: Procedure, filed: LegalDate): LegalDate {
    LegalDate(Deadline(HolidayDays(procedure), filed.day, procedure.rule.cureDeadline), true)
  }

  predicate Late(date: LegalDate, deadline: LegalDate) {
    date.day > deadline.day
  }

  // ---------------------------------------------------------------------------------------
  // Missing fields
  // ---------------------------------------------------------------------------------------

  // The first submitted field with this id, as a linear search finds it, has a value.
  predicate Supplied(fields: seq<SubmittedField>, id: string) {
    fields != [] && if fields[0].id == id then fields[0].value != "" else Supplied(fields[1..], id)
  }

  function Unsupplied(required: seq<string>, fields: seq<SubmittedField>): (missing: seq<string>)
    ensures forall id :: id in missing <==> id in required && !Supplied(fields, id)
  {
    if required == [] then []
    else
      var front := required[..|required| - 1];
      var last := required[|required| - 1];
      assert forall id :: id in required <==> id in front || id == last;
      if Supplied(fields, last) then Unsupplied(front, fields) else Unsupplied(front, fields) + [last]
  }

  function MissingFields(rule: InitiatingFilingRule, command: SubmitFiling): seq<string> {
    Sort(Unsupplied(rule.requiredFields, command.fields), StringLeq)
  }

  method CollectMissingFields(rule: InitiatingFilingRule, command: SubmitFiling) returns (missing: seq<string>)
    ensures missing == MissingFields(rule, command)
  {
    missing := [];
    for i := 0 to |rule.requiredFields|
      invariant missing == Unsupplied(rule.requiredFields[..i], command.fields)
    {
      assert rule.requiredFields[..i + 1][..i] == rule.requiredFields[..i];
      if !Supplied(command.fields, rule.requiredFields[i]) {
        missing := missing + [rule.requiredFields[i]];
      }
    }
    assert rule.requiredFields[..|rule.requiredFields|] == rule.requiredFields;
    missing := Sort(missing, StringLeq);
  }

  // The report lists exactly the required fields the command leaves out, in order, each once.
  lemma {:induction false} MissingFieldsExactly(rule: InitiatingFilingRule, command: SubmitFiling)
    ensures var missing := MissingFields(rule, command);
            && (forall id :: id in missing <==> id in rule.requiredFields && !Supplied(command.fields, id))
            && Sorted(missing, StringLeq)
            && (!HasDuplicates(rule.requiredFields) ==> Distinct(missing))
  {
    var unsupplied := Unsupplied(rule.requiredFields, command.fields);
    StringOrderIsTotal();
    SortSorts(unsupplied, StringLeq);
    if !HasDuplicates(rule.requiredFields) {
      UnsuppliedIsDistinct(rule.requiredFields, command.fields);
      SortKeepsDistinct(unsupplied, StringLeq);
    }
  }

  lemma {:induction false} UnsuppliedIsDistinct(required: seq<string>, fields: seq<SubmittedField>)
    requires !HasDuplicates(required)
    ensures Distinct(Unsupplied(required, fields))
    decreases |required|
  {
    if required != [] {
      var front := required[..|required| - 1];
      assert forall i, j :: 0 <= i < j < |front| ==> front[i] == required[i] && front[j] == required[j];
      UnsuppliedIsDistinct(front, fields);
    }
  }

  // ---------------------------------------------------------------------------------------
  // Decide
  // ---------------------------------------------------------------------------------------

  predicate InvalidCommandFor(session: Session, command: SubmitFiling) {
    || command.sessionId != session.id || command.submissionId == "" || !command.submittedAt.courtDate.ok
    || !ValidDigest(command.documentSha256)
    || "" in FieldIds(command.fields) || HasDuplicates(FieldIds(command.fields))
  }

  function Reject(command: SubmitFiling, reason: RejectionReason, authority: AuthorityBasis): LegalEvent {
    FilingRejected(command.sessionId, command.submissionId, command.actorId, command.filingType,
                   command.submittedAt, reason, authority)
  }

  function Decide(procedure: Procedure, case_: Case, session: Session,
                  command: SubmitFiling): (r: Result<seq<LegalEvent>>)
    ensures r.Ok? ==> |r.value| == 1 && r.value[0].submissionId == command.submissionId
  {
    var rule := procedure.rule;
    var valid := Validate(procedure, case_, session);
    if valid.Err? then Err(valid.error)
    else if InvalidCommandFor(session, command) then Err(InvalidCommand)
    else if command.submissionId in session.decidedSubmissions then Err(DuplicateSubmission)
    else
      var role := RoleIn(case_.actors, command.actorId);
      if role.None? then Err(UnknownActor)
      else if role.value !in rule.authorizedRoles then
        Ok([Reject(command, UnauthorizedActor, rule.actorAuthority)])
      else if command.filingType != rule.filingType then
        Ok([Reject(command, WrongFilingType, rule.filingAuthority)])
      else if session.phase == Docketed then
        Ok([Reject(command, ProceedingAlreadyDocketed, rule.filingAuthority)])
      else if session.pendingDeficiency.Some?
              && Late(command.submittedAt.courtDate, session.pendingDeficiency.value.cureDeadline) then
        Ok([Reject(command, CureDeadlineExpired, rule.deficiencyAuthority)])
      else
        var missing := MissingFields(rule, command);
        if missing != [] then
          if session.pendingDeficiency.Some? then
            Ok([Reject(command, DeficiencyNotCured, rule.deficiencyAuthority)])
          else
            Ok([FilingDeficiencyIssued(
                  command.sessionId, command.submissionId, command.actorId, command.filingType, command.submittedAt,
                  command.documentSha256, missing, CureDeadlineFrom(procedure, command.submittedAt.courtDate),
                  session.nextDocketSequence, rule.deficiencyAuthority)])
        else
          Ok([FilingAccepted(
                command.sessionId, command.submissionId, command.actorId, command.filingType, command.submittedAt,
                command.documentSha256, session.nextDocketSequence, rule.filingAuthority)])
  }

  lemma DecidedIsNew(procedure: Procedure, case_: Case, session: Session, command: SubmitFiling)
    requires Decide(procedure, case_, session, command).Ok?
    ensures command.submissionId !in session.decidedSubmissions
  {
    hide Validate, InvalidCommandFor, RoleIn, MissingFields, CureDeadlineFrom;
  }

  // ---------------------------------------------------------------------------------------
  // Apply
  // ---------------------------------------------------------------------------------------

  predicate MayAccept(procedure: Procedure, case_: Case, session: Session, event: LegalEvent)
    requires event.FilingAccepted?
  {
    && session.phase != Docketed
    && event.docketSequence == session.nextDocketSequence
    && event.filingType == procedure.rule.filingType
    && event.authority == procedure.rule.filingAuthority
    && event.submittedAt.courtDate.ok
    && ValidDigest(event.documentSha256)
    && IsAuthorizedActor(procedure, case_, event.actorId)
    && (session.pendingDeficiency.Some? ==>
          !Late(event.submittedAt.courtDate, session.pendingDeficiency.value.cureDeadline))
  }

  predicate MayIssueDeficiency(procedure: Procedure, case_: Case, session: Session, event: LegalEvent)
    requires event.FilingDeficiencyIssued?
  {
    && session.phase == AwaitingInitiatingFiling
    && event.docketSequence == session.nextDocketSequence
    && event.missingFields != []
    && event.filingType == procedure.rule.filingType
    && event.authority == procedure.rule.deficiencyAuthority
    && event.submittedAt.courtDate.ok
    && ValidDigest(event.documentSha256)
    && event.cureDeadline == CureDeadlineFrom(procedure, event.submittedAt.courtDate)
    && IsAuthorizedActor(procedure, case_, event.actorId)
    && (forall id :: id in event.missingFields ==> id in procedure.rule.requiredFields)
  }

  predicate ReasonIsConsistent(procedure: Procedure, case_: Case, session: Session, event: LegalEvent)
    requires event.FilingRejected?
  {
    var authorized := IsAuthorizedActor(procedure, case_, event.actorId);
    match event.reason
    case UnauthorizedActor => !authorized
    case WrongFilingType => authorized && event.filingType != procedure.rule.filingType
    case CureDeadlineExpired =>
      authorized && session.pendingDeficiency.Some?
      && Late(event.submittedAt.courtDate, session.pendingDeficiency.value.cureDeadline)
    case DeficiencyNotCured => authorized && session.pendingDeficiency.Some?
    case ProceedingAlreadyDocketed => authorized && session.phase == Docketed
  }

  predicate MayReject(procedure: Procedure, case_: Case, session: Session, event: LegalEvent)
    requires event.FilingRejected?
  {
    && RoleIn(case_.actors, event.actorId).Some?
    && event.authority == ExpectedAuthority(procedure.rule, event.reason)
    && event.submittedAt.courtDate.ok
    && ReasonIsConsistent(procedure, case_, session, event)
  }

  predicate MayApply(procedure: Procedure, case_: Case, session: Session, event: LegalEvent) {
    match event
    case FilingAccepted(_, _, _, _, _, _, _, _) => MayAccept(procedure, case_, session, event)
    case FilingDeficiencyIssued(_, _, _, _, _, _, _, _, _, _) => MayIssueDeficiency(procedure, case_, session, event)
    case FilingRejected(_, _, _, _, _, _, _) => MayReject(procedure, case_, session, event)
  }

  function Increment(n: nat): nat {
    (n + 1) % UINT64_LIMIT
  }

  function Advance(session: Session, event: LegalEvent): Session {
    var next :=
      match event
      case FilingAccepted(_, submissionId, actorId, filingType, _, sha, docket, _) =>
        session.(phase := Docketed,
                 pendingDeficiency := None,
                 acceptedFiling := Some(AcceptedFiling(submissionId, actorId, filingType, sha, docket)),
                 nextDocketSequence := Increment(session.nextDocketSequence))
      case FilingDeficiencyIssued(_, submissionId, _, _, _, _, missing, deadline, _, _) =>
        session.(phase := DeficiencyPending,
                 pendingDeficiency := Some(PendingDeficiency(submissionId, deadline, missing)),
                 nextDocketSequence := Increment(session.nextDocketSequence))
      case FilingRejected(_, _, _, _, _, _, _) => session;
    next.(decidedSubmissions := session.decidedSubmissions + [event.submissionId])
  }

  function Apply(procedure: Procedure, case_: Case, session: Session, event: LegalEvent): Result<Session> {
    var valid := Validate(procedure, case_, session);
    if valid.Err? then Err(valid.error)
    else if event.sessionId != session.id || !ValidAuthority(event.authority)
            || event.submissionId in session.decidedSubmissions then Err(InvalidEvent)
    else if !MayApply(procedure, case_, session, event) then Err(InvalidTransition)
    else Ok(Advance(session, event))
  }

  // ---------------------------------------------------------------------------------------
  // Replay
  // ---------------------------------------------------------------------------------------

  function Replayed(procedure: Procedure, case_: Case, session: Session, events: seq<LegalEvent>): Result<Session> {
    if events == [] then Ok(session)
    else
      var before := Replayed(procedure, case_, session, events[..|events| - 1]);
      if before.Err? then before else Apply(procedure, case_, before.value, events[|events| - 1])
  }

  lemma {:induction false} FailureIsFinal(procedure: Procedure, case_: Case, session: Session, events: seq<LegalEvent>,
                                          i: nat)
    requires i <= |events| && Replayed(procedure, case_, session, events[..i]).Err?
    ensures Replayed(procedure, case_, session, events) == Replayed(procedure, case_, session, events[..i])
    decreases |events|
  {
    if i == |events| {
      assert events[..i] == events;
    } else {
      assert events[..|events| - 1][..i] == events[..i];
      FailureIsFinal(procedure, case_, session, events[..|events| - 1], i);
    }
  }

  method Replay(procedure: Procedure, case_: Case, initial: Session, events: seq<LegalEvent>)
    returns (r: Result<Session>)
    ensures r == Replayed(procedure, case_, initial, events)
  {
    var session := initial;
    for i := 0 to |events|
      invariant Replayed(procedure, case_, initial, events[..i]) == Ok(session)
    {
      assert events[..i + 1][..i] == events[..i];
      var next := Apply(procedure, case_, session, events[i]);
      if next.Err? {
        FailureIsFinal(procedure, case_, initial, events, i + 1);
        return next;
      }
      session := next.value;
    }
    assert events[..|events|] == events;
    return Ok(session);
  }
}

/** What the kernel decides about a filing, said of the session and the filing alone. */
module ProcedureDecision {
  import opened BusinessCalendar
  import opened ProcedureModel
  import opened ProcedureEngine
  import opened Sorting

  // ---------------------------------------------------------------------------------------
  // Which filings are decided at all
  // ---------------------------------------------------------------------------------------

  // A filing for this session, on a calendar date, with a digest of 64 lower-case hexadecimal
  // characters and named fields, each at most once.
  ghost predicate ProperFiling(session: Session, command: SubmitFiling) {
    && command.sessionId == session.id && command.submissionId != "" && command.submittedAt.courtDate.ok
    && |command.documentSha256| == 64
    && (forall i :: 0 <= i < 64 ==>
          '0' <= command.documentSha256[i] <= '9' || 'a' <= command.documentSha256[i] <= 'f')
    && (forall i :: 0 <= i < |command.fields| ==> command.fields[i].id != "")
    && (forall i, j :: 0 <= i < j < |command.fields| ==> command.fields[i].id != command.fields[j].id)
  }

  ghost predicate ActsInCase(case_: Case, actorId: string) {
    exists i :: 0 <= i < |case_.actors| && case_.actors[i].id == actorId
  }

  // Every cited authority is complete and cited once, and all are of one generation.
  ghost predicate GoodAuthority(basis: AuthorityBasis) {
    var all := [basis.primary] + basis.supporting;
    && |all| <= 33
    && (forall i :: 0 <= i < |all| ==>
          && all[i].id != "" && all[i].citation != "" && all[i].sourceVersion != "" && all[i].proposition != ""
          && (all[i].provenance.Some? <==> basis.primary.provenance.Some?)
          && (all[i].provenance.Some? ==> all[i].provenance.value.canonical))
    && (forall i, j :: 0 <= i < j < |all| ==> all[i].id != all[j].id)
  }

  ghost predicate OneGeneration(rule: InitiatingFilingRule) {
    rule.filingAuthority.primary.provenance.Some? == rule.actorAuthority.primary.provenance.Some?
    == rule.deficiencyAuthority.primary.provenance.Some?
  }

  ghost predicate EachNamedOnce(names: seq<string>) {
    (forall i :: 0 <= i < |names| ==> names[i] != "") && (forall i, j :: 0 <= i < j < |names| ==> names[i] != names[j])
  }

  // A complete definition, and a case and a session that belong to it.
  ghost predicate Consistent(procedure: Procedure, case_: Case, session: Session) {
    var rule := procedure.rule;
    && procedure.id != "" && rule.filingType != "" && rule.authorizedRoles != [] && rule.cureDeadline.days > 0
    && (forall i :: 0 <= i < |procedure.holidays| ==> procedure.holidays[i].ok)
    && EachNamedOnce(rule.authorizedRoles) && EachNamedOnce(rule.requiredFields)
    && GoodAuthority(rule.filingAuthority) && GoodAuthority(rule.actorAuthority)
    && GoodAuthority(rule.deficiencyAuthority) && OneGeneration(rule)
    && case_.id != "" && case_.actors != []
    && (forall i, j :: 0 <= i < j < |case_.actors| ==> case_.actors[i].id != case_.actors[j].id)
    && session.id != "" && session.nextDocketSequence > 0
    && case_.procedureId == procedure.id == session.procedureId && session.caseId == case_.id
  }

  lemma AuthorityIsGoodExactlyWhen(basis: AuthorityBasis)
    ensures GoodAuthority(basis) <==> ValidAuthority(basis)
  {
    var all := [basis.primary] + basis.supporting;
    var ids := AuthorityIds(basis);
    assert forall i :: 0 <= i < |all| ==> ids[i] == all[i].id;
    assert forall i :: 0 < i < |all| ==> all[i] == basis.supporting[i - 1] && all[i] in basis.supporting;
    assert all[0] == basis.primary;
    if GoodAuthority(basis) {
      forall a | a in basis.supporting
        ensures a.provenance.Some? == basis.primary.provenance.Some? && ValidAuthorityRef(a)
      {
        var i :| 0 <= i < |basis.supporting| && basis.supporting[i] == a;
        assert all[i + 1] == a;
      }
    }
  }

  lemma RuleIsValidExactlyWhen(procedure: Procedure)
    ensures var rule := procedure.rule;
            !InvalidRule(procedure) <==>
            && procedure.id != "" && rule.filingType != "" && rule.authorizedRoles != [] && rule.cureDeadline.days > 0
            && (forall i :: 0 <= i < |procedure.holidays| ==> procedure.holidays[i].ok)
            && EachNamedOnce(rule.authorizedRoles) && EachNamedOnce(rule.requiredFields)
  {
    assert forall i :: 0 <= i < |procedure.holidays| ==> procedure.holidays[i] in procedure.holidays;
    assert forall names: seq<string>, i :: 0 <= i < |names| ==> names[i] in names;
  }

  // Validation accepts exactly what is complete and belongs together.
  lemma {:induction false} ConsistentExactlyWhen(procedure: Procedure, case_: Case, session: Session)
    ensures Validate(procedure, case_, session).Ok? <==> Consistent(procedure, case_, session)
  {
    RuleIsValidExactlyWhen(procedure);
    AuthorityIsGoodExactlyWhen(procedure.rule.filingAuthority);
    AuthorityIsGoodExactlyWhen(procedure.rule.actorAuthority);
    AuthorityIsGoodExactlyWhen(procedure.rule.deficiencyAuthority);
    var ids := ActorIds(case_.actors);
    assert forall i :: 0 <= i < |ids| ==> ids[i] == case_.actors[i].id;
    hide ValidAuthority, GoodAuthority, InvalidRule, EachNamedOnce;
  }

  lemma ProperExactlyWhen(session: Session, command: SubmitFiling)
    ensures ProperFiling(session, command) <==> !InvalidCommandFor(session, command)
  {
    var ids := FieldIds(command.fields);
    assert forall i :: 0 <= i < |ids| ==> ids[i] == command.fields[i].id;
    var digest := command.documentSha256;
    assert forall i :: 0 <= i < |digest| ==> digest[i] in digest;
    if !InvalidCommandFor(session, command) {
      assert forall i :: 0 <= i < |ids| ==> ids[i] in ids;
    }
  }

  lemma {:induction false} RoleIsFound(actors: seq<CaseActor>, actorId: string)
    requires forall i, j :: 0 <= i < j < |actors| ==> actors[i].id != actors[j].id
    ensures RoleIn(actors, actorId).Some? <==> exists i :: 0 <= i < |actors| && actors[i].id == actorId
    ensures forall i :: 0 <= i < |actors| && actors[i].id == actorId ==> RoleIn(actors, actorId) == Some(actors[i].role)
    decreases |actors|
  {
    if actors != [] && actors[0].id != actorId {
      RoleIsFound(actors[1..], actorId);
      assert forall i :: 1 <= i < |actors| ==> actors[i] == actors[1..][i - 1];
    }
  }

  // A filing is decided exactly when the definitions are valid, the filing is proper, its submission
  // is new and its actor acts in the case; otherwise the first of these that fails is the error.
  lemma {:induction false} DecidedExactlyWhen(procedure: Procedure, case_: Case, session: Session,
                                              command: SubmitFiling)
    ensures Decide(procedure, case_, session, command).Ok? <==>
            && Consistent(procedure, case_, session) && ProperFiling(session, command)
            && command.submissionId !in session.decidedSubmissions && ActsInCase(case_, command.actorId)
    ensures Consistent(procedure, case_, session) ==>
              match Decide(procedure, case_, session, command)
              case Ok(_) => true
              case Err(InvalidCommand) => !ProperFiling(session, command)
              case Err(DuplicateSubmission) =>
                ProperFiling(session, command) && command.submissionId in session.decidedSubmissions
              case Err(UnknownActor) =>
                && ProperFiling(session, command) && command.submissionId !in session.decidedSubmissions
                && !ActsInCase(case_, command.actorId)
              case Err(_) => false
  {
    ProperExactlyWhen(session, command);
    ConsistentExactlyWhen(procedure, case_, session);
    if Consistent(procedure, case_, session) {
      RoleIsFound(case_.actors, command.actorId);
    }
    hide Validate, Consistent, ProperFiling, InvalidCommandFor, RoleIn, MissingFields, CureDeadlineFrom;
  }

  // ---------------------------------------------------------------------------------------
  // What is decided
  // ---------------------------------------------------------------------------------------

  ghost predicate Authorized(procedure: Procedure, case_: Case, actorId: string) {
    exists i :: 0 <= i < |case_.actors| && case_.actors[i].id == actorId
                && case_.actors[i].role in procedure.rule.authorizedRoles
  }

  lemma AuthorizedExactlyWhen(procedure: Procedure, case_: Case, actorId: string)
    requires forall i, j :: 0 <= i < j < |case_.actors| ==> case_.actors[i].id != case_.actors[j].id
    ensures IsAuthorizedActor(procedure, case_, actorId) <==> Authorized(procedure, case_, actorId)
  {
    RoleIsFound(case_.actors, actorId);
  }

  ghost predicate InTime(session: Session, command: SubmitFiling) {
    match session.pendingDeficiency
    case None => true
    case Some(pending) => command.submittedAt.courtDate.day <= pending.cureDeadline.day
  }

  ghost predicate Fills(command: SubmitFiling, id: string) {
    exists i :: 0 <= i < |command.fields| && command.fields[i].id == id && command.fields[i].value != ""
  }

  ghost predicate CompleteFiling(procedure: Procedure, command: SubmitFiling) {
    forall id :: id in procedure.rule.requiredFields ==> Fills(command, id)
  }

  // The first condition that fails, if any of the first four does.
  ghost function Obstacle(procedure: Procedure, case_: Case, session: Session, command: SubmitFiling)
    : Option<RejectionReason>
  {
    if !Authorized(procedure, case_, command.actorId) then Some(UnauthorizedActor)
    else if command.filingType != procedure.rule.filingType then Some(WrongFilingType)
    else if session.phase == Docketed then Some(ProceedingAlreadyDocketed)
    else if !InTime(session, command) then Some(CureDeadlineExpired)
    else None
  }

  // The event repeats what was filed, and cites the authority of the rule applied.
  ghost predicate Restates(procedure: Procedure, session: Session, command: SubmitFiling, e: LegalEvent) {
    && e.sessionId == session.id && e.submissionId == command.submissionId && e.actorId == command.actorId
    && e.filingType == command.filingType && e.submittedAt == command.submittedAt
    && (!e.FilingRejected? ==>
          e.documentSha256 == command.documentSha256 && e.docketSequence == session.nextDocketSequence)
    && e.authority == (
         match e
         case FilingAccepted(_, _, _, _, _, _, _, _) => procedure.rule.filingAuthority
         case FilingDeficiencyIssued(_, _, _, _, _, _, _, _, _, _) => procedure.rule.deficiencyAuthority
         case FilingRejected(_, _, _, _, _, reason, _) =>
           match reason
           case UnauthorizedActor => procedure.rule.actorAuthority
           case CureDeadlineExpired => procedure.rule.deficiencyAuthority
           case DeficiencyNotCured => procedure.rule.deficiencyAuthority
           case _ => procedure.rule.filingAuthority)
  }

  // What a deficiency demands: the required fields left unfilled, in order and each once, by the
  // deadline counted from the day of the filing.
  ghost predicate DemandsTheRest(procedure: Procedure, command: SubmitFiling, e: LegalEvent)
    requires e.FilingDeficiencyIssued?
  {
    && (forall id :: id in e.missingFields <==> id in procedure.rule.requiredFields && !Fills(command, id))
    && Sorted(e.missingFields, StringLeq) && Distinct(e.missingFields)
    && e.cureDeadline.ok
    && exists days: seq<int> ::
         && |days| == |procedure.holidays|
         && (forall i :: 0 <= i < |days| ==> days[i] == procedure.holidays[i].day)
         && e.cureDeadline.day == Deadline(days, command.submittedAt.courtDate.day, procedure.rule.cureDeadline)
  }

  // The one event that session and filing call for.
  ghost predicate CalledFor(procedure: Procedure, case_: Case, session: Session, command: SubmitFiling, e: LegalEvent) {
    var obstacle := Obstacle(procedure, case_, session, command);
    var complete := CompleteFiling(procedure, command);
    var pending := session.pendingDeficiency.Some?;
    && (e.FilingAccepted? <==> obstacle.None? && complete)
    && (e.FilingDeficiencyIssued? <==> obstacle.None? && !complete && !pending)
    && (e.FilingRejected? ==> Some(e.reason) == if obstacle.Some? then obstacle else Some(DeficiencyNotCured))
    && Restates(procedure, session, command, e)
    && (e.FilingDeficiencyIssued? ==> DemandsTheRest(procedure, command, e))
  }

  lemma {:induction false} SuppliedIsFilled(fields: seq<SubmittedField>, id: string)
    requires forall i, j :: 0 <= i < j < |fields| ==> fields[i].id != fields[j].id
    ensures Supplied(fields, id) <==> exists i :: 0 <= i < |fields| && fields[i].id == id && fields[i].value != ""
    decreases |fields|
  {
    if fields != [] && fields[0].id != id {
      SuppliedIsFilled(fields[1..], id);
      assert forall i :: 1 <= i < |fields| ==> fields[i] == fields[1..][i - 1];
    }
  }

  lemma MissingIsUnfilled(procedure: Procedure, command: SubmitFiling)
    requires forall i, j :: 0 <= i < j < |command.fields| ==> command.fields[i].id != command.fields[j].id
    requires forall i, j :: 0 <= i < j < |procedure.rule.requiredFields| ==>
               procedure.rule.requiredFields[i] != procedure.rule.requiredFields[j]
    ensures var missing := MissingFields(procedure.rule, command);
            && (forall id :: id in missing <==> id in procedure.rule.requiredFields && !Fills(command, id))
            && Sorted(missing, StringLeq) && Distinct(missing)
            && (missing == [] <==> CompleteFiling(procedure, command))
  {
    hide MissingFields;
    MissingFieldsExactly(procedure.rule, command);
    forall id ensures Supplied(command.fields, id) <==> Fills(command, id) {
      SuppliedIsFilled(command.fields, id);
    }
    var missing := MissingFields(procedure.rule, command);
    if missing != [] {
      assert missing[0] in missing;
    }
  }

  lemma CureDeadlineIsCounted(procedure: Procedure, filed: LegalDate)
    ensures CureDeadlineFrom(procedure, filed).ok
    ensures exists days: seq<int> ::
              && |days| == |procedure.holidays|
              && (forall i :: 0 <= i < |days| ==> days[i] == procedure.holidays[i].day)
              && CureDeadlineFrom(procedure, filed).day == Deadline(days, filed.day, procedure.rule.cureDeadline)
  {
    var days := HolidayDays(procedure);
    assert |days| == |procedure.holidays|;
  }

  // The obstacle, by the role of the actor.
  lemma ObstacleByRole(procedure: Procedure, case_: Case, session: Session, command: SubmitFiling)
    requires Decide(procedure, case_, session, command).Ok?
    ensures RoleIn(case_.actors, command.actorId).Some?
    ensures Obstacle(procedure, case_, session, command) == (
              if RoleIn(case_.actors, command.actorId).value !in procedure.rule.authorizedRoles
              then Some(UnauthorizedActor)
              else if command.filingType != procedure.rule.filingType then Some(WrongFilingType)
              else if session.phase == Docketed then Some(ProceedingAlreadyDocketed)
              else if session.pendingDeficiency.Some?
                      && Late(command.submittedAt.courtDate, session.pendingDeficiency.value.cureDeadline)
              then Some(CureDeadlineExpired) else None)
  {
    ConsistentExactlyWhen(procedure, case_, session);
    RoleIsFound(case_.actors, command.actorId);
    hide Validate, InvalidCommandFor, RoleIn, MissingFields, CureDeadlineFrom, GoodAuthority, EachNamedOnce,
         OneGeneration;
  }

  lemma DecisionHasItsKind(procedure: Procedure, case_: Case, session: Session, command: SubmitFiling)
    requires Decide(procedure, case_, session, command).Ok?
    ensures |Decide(procedure, case_, session, command).value| == 1
    ensures var e := Decide(procedure, case_, session, command).value[0];
            var obstacle := Obstacle(procedure, case_, session, command);
            var complete := MissingFields(procedure.rule, command) == [];
            && (e.FilingAccepted? <==> obstacle.None? && complete)
            && (e.FilingDeficiencyIssued? <==> obstacle.None? && !complete && session.pendingDeficiency.None?)
            && (e.FilingRejected? ==> Some(e.reason) == if obstacle.Some? then obstacle else Some(DeficiencyNotCured))
  {
    ObstacleByRole(procedure, case_, session, command);
    hide Validate, InvalidCommandFor, RoleIn, MissingFields, CureDeadlineFrom, Obstacle, Late;
  }

  lemma DecisionRestates(procedure: Procedure, case_: Case, session: Session, command: SubmitFiling)
    requires Decide(procedure, case_, session, command).Ok?
    ensures var e := Decide(procedure, case_, session, command).value[0];
            && Restates(procedure, session, command, e)
            && (e.FilingDeficiencyIssued? ==>
                  && e.missingFields == MissingFields(procedure.rule, command)
                  && e.cureDeadline == CureDeadlineFrom(procedure, command.submittedAt.courtDate))
  {
    hide Validate, RoleIn, MissingFields, CureDeadlineFrom, Late, ValidDigest, HasDuplicates;
  }

  // Whatever is decided is what session and filing call for: an acceptance exactly when nothing
  // stands in the way and every required field is filled, a deficiency exactly when a field is
  // missing and none is pending, and else a rejection for the first condition that fails.
  lemma {:induction false} DecisionIsCalledFor(procedure: Procedure, case_: Case, session: Session,
                                               command: SubmitFiling)
    requires Decide(procedure, case_, session, command).Ok?
    ensures |Decide(procedure, case_, session, command).value| == 1
    ensures CalledFor(procedure, case_, session, command, Decide(procedure, case_, session, command).value[0])
  {
    DecisionHasItsKind(procedure, case_, session, command);
    DecisionRestates(procedure, case_, session, command);
    DecidedIsProper(procedure, case_, session, command);
    MissingIsUnfilled(procedure, command);
    CureDeadlineIsCounted(procedure, command.submittedAt.courtDate);
    hide Decide, Obstacle, Restates, MissingFields, CureDeadlineFrom, CompleteFiling, Fills, HolidayDays;
  }

  lemma DecidedIsProper(procedure: Procedure, case_: Case, session: Session, command: SubmitFiling)
    requires Decide(procedure, case_, session, command).Ok?
    ensures forall i, j :: 0 <= i < j < |command.fields| ==> command.fields[i].id != command.fields[j].id
    ensures forall i, j :: 0 <= i < j < |procedure.rule.requiredFields| ==>
              procedure.rule.requiredFields[i] != procedure.rule.requiredFields[j]
  {
    DecidedExactlyWhen(procedure, case_, session, command);
    hide Decide, GoodAuthority;
  }

  // The session and the filing call for one event only.
  lemma {:induction false} OneEventIsCalledFor(procedure: Procedure, case_: Case, session: Session,
                                               command: SubmitFiling, a: LegalEvent, b: LegalEvent)
    requires CalledFor(procedure, case_, session, command, a) && CalledFor(procedure, case_, session, command, b)
    ensures a == b
  {
    hide Authorized, InTime, CompleteFiling, Fills;
    if a.FilingDeficiencyIssued? {
      StringOrderIsTotal();
      SortedEnumerationIsUnique(a.missingFields, b.missingFields, StringLeq);
      assert forall s, t: seq<int> ::
          |s| == |t| && (forall i :: 0 <= i < |s| ==> s[i] == t[i]) ==> s == t;
    }
  }
}

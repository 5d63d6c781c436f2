/** What an event log says on its own, and what replaying it therefore yields. */
module ProcedureHistory {
  import opened BusinessCalendar
  import opened ProcedureModel
  import opened ProcedureEngine

  // A session before its first filing.
  predicate Pristine(procedure: Procedure, case_: Case, session: Session) {
    && session.id != "" && case_.procedureId == procedure.id && session.procedureId == procedure.id
    && session.caseId == case_.id && session.phase == AwaitingInitiatingFiling && session.nextDocketSequence == 1
    && session.pendingDeficiency.None? && session.acceptedFiling.None? && session.decidedSubmissions == []
  }

  // ---------------------------------------------------------------------------------------
  // Facts read off a log
  // ---------------------------------------------------------------------------------------

  predicate HasAcceptance(log: seq<LegalEvent>) {
    exists e :: e in log && e.FilingAccepted?
  }

  predicate HasDeficiency(log: seq<LegalEvent>) {
    exists e :: e in log && e.FilingDeficiencyIssued?
  }

  // How many of the logged events entered the docket.
  function DocketedCount(log: seq<LegalEvent>): nat {
    if log == [] then 0
    else DocketedCount(log[..|log| - 1]) + if log[|log| - 1].FilingRejected? then 0 else 1
  }

  function Submissions(log: seq<LegalEvent>): seq<string> {
    seq(|log|, i requires 0 <= i < |log| => log[i].submissionId)
  }

  function LastDeficiency(log: seq<LegalEvent>): Option<PendingDeficiency> {
    if log == [] then None
    else
      match log[|log| - 1]
      case FilingDeficiencyIssued(_, submission, _, _, _, _, missing, deadline, _, _) =>
        Some(PendingDeficiency(submission, deadline, missing))
      case _ => LastDeficiency(log[..|log| - 1])
  }

  function LastAcceptance(log: seq<LegalEvent>): Option<AcceptedFiling> {
    if log == [] then None
    else
      match log[|log| - 1]
      case FilingAccepted(_, submission, actor, filingType, _, sha, docket, _) =>
        Some(AcceptedFiling(submission, actor, filingType, sha, docket))
      case _ => LastAcceptance(log[..|log| - 1])
  }

  // The session a log describes, computed without the reducer.
  function Summary(initial: Session, log: seq<LegalEvent>): Session {
    initial.(
      phase := if HasAcceptance(log) then Docketed
               else if HasDeficiency(log) then DeficiencyPending
               else AwaitingInitiatingFiling,
      nextDocketSequence := DocketedCount(log) + 1,
      pendingDeficiency := if HasAcceptance(log) then None else LastDeficiency(log),
      acceptedFiling := LastAcceptance(log),
      decidedSubmissions := Submissions(log))
  }

  // A deficiency that no later acceptance has settled.
  predicate OpenDeficiency(log: seq<LegalEvent>) {
    HasDeficiency(log) && !HasAcceptance(log)
  }

  // A rejection must name a reason the log bears out.
  ghost predicate ReasonLegal(procedure: Procedure, case_: Case, earlier: seq<LegalEvent>, e: LegalEvent)
    requires e.FilingRejected?
  {
    && (e.reason.UnauthorizedActor? <==> !IsAuthorizedActor(procedure, case_, e.actorId))
    && (e.reason.WrongFilingType? ==> e.filingType != procedure.rule.filingType)
    && (e.reason.DeficiencyNotCured? ==> OpenDeficiency(earlier))
    && (e.reason.ProceedingAlreadyDocketed? ==> HasAcceptance(earlier))
    && (e.reason.CureDeadlineExpired? ==>
          OpenDeficiency(earlier)
          && forall d :: d in earlier && d.FilingDeficiencyIssued? ==>
               Late(e.submittedAt.courtDate, CureDeadlineFrom(procedure, d.submittedAt.courtDate)))
  }

  // The rule a new event must satisfy, given only the events before it.
  ghost predicate EntryLegal(procedure: Procedure, case_: Case, initial: Session, earlier: seq<LegalEvent>,
                             e: LegalEvent)
  {
    && Validate(procedure, case_, initial).Ok?
    && e.sessionId == initial.id
    && ValidAuthority(e.authority)
    && e.submittedAt.courtDate.ok
    && (forall p :: p in earlier ==> p.submissionId != e.submissionId)
    && match e
       case FilingAccepted(_, _, _, _, date, _, docket, _) =>
         && !HasAcceptance(earlier)
         && docket == DocketedCount(earlier) + 1
         && e.filingType == procedure.rule.filingType && e.authority == procedure.rule.filingAuthority
         && ValidDigest(e.documentSha256) && IsAuthorizedActor(procedure, case_, e.actorId)
         && (forall d :: d in earlier && d.FilingDeficiencyIssued? ==>
               !Late(date.courtDate, CureDeadlineFrom(procedure, d.submittedAt.courtDate)))
       case FilingDeficiencyIssued(_, _, _, _, date, _, missing, deadline, docket, _) =>
         && !HasAcceptance(earlier) && !HasDeficiency(earlier)
         && docket == DocketedCount(earlier) + 1
         && e.filingType == procedure.rule.filingType && e.authority == procedure.rule.deficiencyAuthority
         && ValidDigest(e.documentSha256) && IsAuthorizedActor(procedure, case_, e.actorId)
         && missing != [] && (forall id :: id in missing ==> id in procedure.rule.requiredFields)
         && deadline == CureDeadlineFrom(procedure, date.courtDate)
       case FilingRejected(_, _, _, _, date, reason, _) =>
         && e.authority == ExpectedAuthority(procedure.rule, reason)
         && RoleIn(case_.actors, e.actorId).Some?
         && ReasonLegal(procedure, case_, earlier, e)
  }

  ghost predicate LogLegal(procedure: Procedure, case_: Case, initial: Session, log: seq<LegalEvent>) {
    log != [] ==>
      && LogLegal(procedure, case_, initial, log[..|log| - 1])
      && EntryLegal(procedure, case_, initial, log[..|log| - 1], log[|log| - 1])
  }

  // ---------------------------------------------------------------------------------------
  // Replay accepts exactly the legal logs
  // ---------------------------------------------------------------------------------------

  lemma {:induction false} EveryEntryLegal(procedure: Procedure, case_: Case, initial: Session, log: seq<LegalEvent>,
                                           i: nat)
    requires LogLegal(procedure, case_, initial, log) && i < |log|
    ensures EntryLegal(procedure, case_, initial, log[..i], log[i])
    decreases |log|
  {
    if i < |log| - 1 {
      assert log[..|log| - 1][..i] == log[..i];
      EveryEntryLegal(procedure, case_, initial, log[..|log| - 1], i);
    }
  }

  lemma SnocFacts(log: seq<LegalEvent>)
    requires log != []
    ensures var front, e := log[..|log| - 1], log[|log| - 1];
            && (HasAcceptance(log) <==> HasAcceptance(front) || e.FilingAccepted?)
            && (HasDeficiency(log) <==> HasDeficiency(front) || e.FilingDeficiencyIssued?)
            && Submissions(log) == Submissions(front) + [e.submissionId]
            && (forall p :: p in log <==> p in front || p == e)
  {
    var front := log[..|log| - 1];
    assert log == front + [log[|log| - 1]];
  }

  // A legal log enters the docket at most twice: once for a deficiency, once for the acceptance.
  lemma {:induction false} LegalLogDocketsTwice(procedure: Procedure, case_: Case, initial: Session,
                                                log: seq<LegalEvent>)
    requires LogLegal(procedure, case_, initial, log)
    ensures DocketedCount(log) == (if HasDeficiency(log) then 1 else 0) + (if HasAcceptance(log) then 1 else 0)
    decreases |log|
  {
    if log != [] {
      SnocFacts(log);
      LegalLogDocketsTwice(procedure, case_, initial, log[..|log| - 1]);
    }
  }

  // The one deficiency of a legal log is the one its summary reports.
  lemma {:induction false} TheDeficiency(procedure: Procedure, case_: Case, initial: Session, log: seq<LegalEvent>)
    requires LogLegal(procedure, case_, initial, log)
    ensures LastDeficiency(log).Some? <==> HasDeficiency(log)
    ensures LastAcceptance(log).Some? <==> HasAcceptance(log)
    ensures forall d :: d in log && d.FilingDeficiencyIssued? ==>
              LastDeficiency(log) == Some(PendingDeficiency(d.submissionId, d.cureDeadline, d.missingFields))
              && d.cureDeadline == CureDeadlineFrom(procedure, d.submittedAt.courtDate)
    decreases |log|
  {
    if log != [] {
      SnocFacts(log);
      TheDeficiency(procedure, case_, initial, log[..|log| - 1]);
    }
  }

  lemma SubmissionsKnown(log: seq<LegalEvent>, id: string)
    ensures id in Submissions(log) <==> exists p :: p in log && p.submissionId == id
  {
    if p :| p in log && p.submissionId == id {
      var i :| 0 <= i < |log| && log[i] == p;
      assert Submissions(log)[i] == id;
    }
    if id in Submissions(log) {
      var i :| 0 <= i < |log| && Submissions(log)[i] == id;
      assert log[i] in log;
    }
  }

  // Validation looks only at what a log leaves as it was.
  lemma SummaryValidates(procedure: Procedure, case_: Case, initial: Session, log: seq<LegalEvent>)
    requires initial.nextDocketSequence != 0
    ensures Validate(procedure, case_, Summary(initial, log)) == Validate(procedure, case_, initial)
  {
    hide InvalidRule, ValidAuthority, HasDuplicates, DocketedCount, LastDeficiency, LastAcceptance;
  }

  lemma AcceptanceMatchesLog(procedure: Procedure, case_: Case, initial: Session, log: seq<LegalEvent>, e: LegalEvent)
    requires Pristine(procedure, case_, initial)
    requires LogLegal(procedure, case_, initial, log) && e.FilingAccepted?
    ensures Apply(procedure, case_, Summary(initial, log), e).Ok? <==> EntryLegal(procedure, case_, initial, log, e)
  {
    SummaryValidates(procedure, case_, initial, log);
    SubmissionsKnown(log, e.submissionId);
    hide Validate, Submissions, CureDeadlineFrom;
    TheDeficiency(procedure, case_, initial, log);
  }

  lemma DeficiencyMatchesLog(procedure: Procedure, case_: Case, initial: Session, log: seq<LegalEvent>, e: LegalEvent)
    requires Pristine(procedure, case_, initial)
    requires LogLegal(procedure, case_, initial, log) && e.FilingDeficiencyIssued?
    ensures Apply(procedure, case_, Summary(initial, log), e).Ok? <==> EntryLegal(procedure, case_, initial, log, e)
  {
    SummaryValidates(procedure, case_, initial, log);
    SubmissionsKnown(log, e.submissionId);
    hide Validate, Submissions, CureDeadlineFrom;
  }

  lemma ReasonMatchesLog(procedure: Procedure, case_: Case, initial: Session, log: seq<LegalEvent>, e: LegalEvent)
    requires LogLegal(procedure, case_, initial, log) && e.FilingRejected?
    ensures ReasonIsConsistent(procedure, case_, Summary(initial, log), e) <==> ReasonLegal(procedure, case_, log, e)
  {
    hide LogLegal, EntryLegal, DocketedCount, Submissions, RoleIn, CureDeadlineFrom;
    TheDeficiency(procedure, case_, initial, log);
    if OpenDeficiency(log) {
      var d :| d in log && d.FilingDeficiencyIssued?;
    }
  }

  lemma RejectionMatchesLog(procedure: Procedure, case_: Case, initial: Session, log: seq<LegalEvent>, e: LegalEvent)
    requires Pristine(procedure, case_, initial)
    requires LogLegal(procedure, case_, initial, log) && e.FilingRejected?
    ensures Apply(procedure, case_, Summary(initial, log), e).Ok? <==> EntryLegal(procedure, case_, initial, log, e)
  {
    SummaryValidates(procedure, case_, initial, log);
    SubmissionsKnown(log, e.submissionId);
    hide Validate, Submissions, CureDeadlineFrom;
    ReasonMatchesLog(procedure, case_, initial, log, e);
  }

  // One reducer step, seen from the log.
  lemma StepMatchesLog(procedure: Procedure, case_: Case, initial: Session, log: seq<LegalEvent>, e: LegalEvent)
    requires Pristine(procedure, case_, initial)
    requires LogLegal(procedure, case_, initial, log)
    ensures Apply(procedure, case_, Summary(initial, log), e).Ok? <==> EntryLegal(procedure, case_, initial, log, e)
  {
    match e {
      case FilingAccepted(_, _, _, _, _, _, _, _) => AcceptanceMatchesLog(procedure, case_, initial, log, e);
      case FilingDeficiencyIssued(_, _, _, _, _, _, _, _, _, _) =>
        DeficiencyMatchesLog(procedure, case_, initial, log, e);
      case FilingRejected(_, _, _, _, _, _, _) => RejectionMatchesLog(procedure, case_, initial, log, e);
    }
  }

  lemma SummaryParts(log: seq<LegalEvent>, e: LegalEvent)
    ensures var longer := log + [e];
            && DocketedCount(longer) == DocketedCount(log) + (if e.FilingRejected? then 0 else 1)
            && LastDeficiency(longer) == (
                 if e.FilingDeficiencyIssued? then
                   Some(PendingDeficiency(e.submissionId, e.cureDeadline, e.missingFields))
                 else LastDeficiency(log))
            && LastAcceptance(longer) == (
                 if e.FilingAccepted?
                 then Some(AcceptedFiling(e.submissionId, e.actorId, e.filingType, e.documentSha256, e.docketSequence))
                 else LastAcceptance(log))
  {
    assert (log + [e])[..|log|] == log;
  }

  lemma SmallIncrement(n: nat)
    requires n <= 3
    ensures Increment(n) == n + 1
  {
  }

  // The longer log's session, from facts about the shorter log.
  lemma LongerSummary(initial: Session, log: seq<LegalEvent>, e: LegalEvent)
    ensures Summary(initial, log + [e]) == initial.(
              phase := if HasAcceptance(log) || e.FilingAccepted? then Docketed
                       else if HasDeficiency(log) || e.FilingDeficiencyIssued? then DeficiencyPending
                       else AwaitingInitiatingFiling,
              nextDocketSequence := DocketedCount(log) + (if e.FilingRejected? then 0 else 1) + 1,
              pendingDeficiency :=
                if HasAcceptance(log) || e.FilingAccepted? then None
                else if e.FilingDeficiencyIssued? then
                  Some(PendingDeficiency(e.submissionId, e.cureDeadline, e.missingFields))
                else LastDeficiency(log),
              acceptedFiling :=
                if e.FilingAccepted? then
                  Some(AcceptedFiling(e.submissionId, e.actorId, e.filingType, e.documentSha256, e.docketSequence))
                else LastAcceptance(log),
              decidedSubmissions := Submissions(log) + [e.submissionId])
  {
    SummaryParts(log, e);
    assert (log + [e])[..|log|] == log;
    SnocFacts(log + [e]);
    hide DocketedCount, LastDeficiency, LastAcceptance, HasAcceptance, HasDeficiency, Submissions;
  }

  lemma StepExtendsSummary(initial: Session, log: seq<LegalEvent>, e: LegalEvent)
    requires HasAcceptance(log) ==> e.FilingRejected?
    requires DocketedCount(log) <= 2
    ensures Advance(Summary(initial, log), e) == Summary(initial, log + [e])
  {
    hide DocketedCount, LastDeficiency, LastAcceptance, HasAcceptance, HasDeficiency, Submissions, Increment;
    LongerSummary(initial, log, e);
    SmallIncrement(DocketedCount(log) + 1);
  }

  // Replay succeeds exactly on the legal logs, and then rebuilds exactly what the log says.
  lemma {:induction false} ReplayAcceptsExactlyLegalLogs(procedure: Procedure, case_: Case, initial: Session,
                                                         log: seq<LegalEvent>)
    requires Pristine(procedure, case_, initial)
    ensures Replayed(procedure, case_, initial, log).Ok? <==> LogLegal(procedure, case_, initial, log)
    ensures LogLegal(procedure, case_, initial, log) ==>
              Replayed(procedure, case_, initial, log) == Ok(Summary(initial, log))
    decreases |log|
  {
    if log == [] {
      assert Submissions(log) == [];
    } else {
      var front, e := log[..|log| - 1], log[|log| - 1];
      assert log == front + [e];
      ReplayAcceptsExactlyLegalLogs(procedure, case_, initial, front);
      if LogLegal(procedure, case_, initial, front) {
        StepMatchesLog(procedure, case_, initial, front, e);
        if EntryLegal(procedure, case_, initial, front, e) {
          LegalLogDocketsTwice(procedure, case_, initial, front);
          StepExtendsSummary(initial, front, e);
        }
      }
    }
  }

  // ---------------------------------------------------------------------------------------
  // The shape of every accepted log
  // ---------------------------------------------------------------------------------------

  lemma EarlierEntries(log: seq<LegalEvent>, i: int, j: int)
    requires 0 <= i < j < |log|
    ensures log[i] in log[..j]
  {
    assert log[..j][i] == log[i];
  }

  lemma LegalPair(procedure: Procedure, case_: Case, initial: Session, log: seq<LegalEvent>, i: int, j: int)
    requires LogLegal(procedure, case_, initial, log)
    requires 0 <= i < j < |log|
    ensures log[i].submissionId != log[j].submissionId
    ensures log[i].FilingAccepted? ==> log[j].FilingRejected?
    ensures log[i].FilingDeficiencyIssued? ==> !log[j].FilingDeficiencyIssued?
    ensures log[i].FilingDeficiencyIssued? && log[j].FilingAccepted? ==>
              !Late(log[j].submittedAt.courtDate, CureDeadlineFrom(procedure, log[i].submittedAt.courtDate))
  {
    EarlierEntries(log, i, j);
    EveryEntryLegal(procedure, case_, initial, log, j);
  }

  // At most one deficiency, at most one acceptance, nothing docketed after the acceptance; an
  // acceptance after a deficiency is dated by the deadline recomputed from the deficiency's own
  // date; no submission is decided twice. In the session the phase agrees with the optional fields,
  // the decided submissions are the events', and the next docket number is at most three.
  lemma {:induction false} AcceptedLogShape(procedure: Procedure, case_: Case, initial: Session, log: seq<LegalEvent>)
    requires Pristine(procedure, case_, initial)
    requires Replayed(procedure, case_, initial, log).Ok?
    ensures forall i, j :: 0 <= i < j < |log| ==>
              && log[i].submissionId != log[j].submissionId
              && (log[i].FilingAccepted? ==> log[j].FilingRejected?)
              && (log[i].FilingDeficiencyIssued? ==> !log[j].FilingDeficiencyIssued?)
              && (log[i].FilingDeficiencyIssued? && log[j].FilingAccepted? ==>
                    log[j].submittedAt.courtDate.day
                    <= Deadline(HolidayDays(procedure), log[i].submittedAt.courtDate.day, procedure.rule.cureDeadline))
    ensures forall i :: 0 <= i < |log| && !log[i].FilingRejected? ==>
              log[i].docketSequence == DocketedCount(log[..i]) + 1
    ensures var session := Replayed(procedure, case_, initial, log).value;
            && session.nextDocketSequence <= 3
            && (session.phase == DeficiencyPending <==> session.pendingDeficiency.Some?)
            && (session.phase == Docketed <==> session.acceptedFiling.Some?)
            && session.decidedSubmissions == Submissions(log)
  {
    ReplayAcceptsExactlyLegalLogs(procedure, case_, initial, log);
    LegalLogDocketsTwice(procedure, case_, initial, log);
    TheDeficiency(procedure, case_, initial, log);
    forall i, j | 0 <= i < j < |log|
      ensures log[i].submissionId != log[j].submissionId
      ensures log[i].FilingAccepted? ==> log[j].FilingRejected?
      ensures log[i].FilingDeficiencyIssued? ==> !log[j].FilingDeficiencyIssued?
      ensures log[i].FilingDeficiencyIssued? && log[j].FilingAccepted? ==>
                log[j].submittedAt.courtDate.day
                <= Deadline(HolidayDays(procedure), log[i].submittedAt.courtDate.day, procedure.rule.cureDeadline)
    {
      LegalPair(procedure, case_, initial, log, i, j);
    }
    forall i | 0 <= i < |log| && !log[i].FilingRejected?
      ensures log[i].docketSequence == DocketedCount(log[..i]) + 1
    {
      EveryEntryLegal(procedure, case_, initial, log, i);
    }
  }

  // ---------------------------------------------------------------------------------------
  // Decide and apply
  // ---------------------------------------------------------------------------------------

  // The pairing of phase and deficiency that validation leaves unchecked.
  predicate PhaseMatchesDeficiency(session: Session) {
    session.phase == DeficiencyPending ==> session.pendingDeficiency.Some?
  }

  // In the deficiency phase, without a deficiency, an authorized actor files a notice of the right
  // type that leaves a required field out.
  predicate FilesIntoStrandedSession(procedure: Procedure, case_: Case, session: Session, command: SubmitFiling) {
    && !PhaseMatchesDeficiency(session)
    && IsAuthorizedActor(procedure, case_, command.actorId)
    && command.filingType == procedure.rule.filingType
    && exists id :: id in procedure.rule.requiredFields && !Supplied(command.fields, id)
  }

  // In any session whatever, what was decided is refused by the reducer in exactly one case.
  lemma {:induction false} DecidedEventAppliesExactlyWhen(procedure: Procedure, case_: Case, session: Session,
                                                          command: SubmitFiling)
    requires Decide(procedure, case_, session, command).Ok?
    ensures var event := Decide(procedure, case_, session, command).value[0];
            Apply(procedure, case_, session, event).Ok? <==>
            !FilesIntoStrandedSession(procedure, case_, session, command)
  {
    DeficiencyAppliesExactlyWhen(procedure, case_, session, command);
    if !PhaseMatchesDeficiency(session) {
      DeficiencyDecidedExactlyWhen(procedure, case_, session, command);
    }
    hide Decide, Apply, RoleIn, IsAuthorizedActor, Supplied;
  }

  lemma DeficiencyAppliesExactlyWhen(procedure: Procedure, case_: Case, session: Session, command: SubmitFiling)
    requires Decide(procedure, case_, session, command).Ok?
    ensures var event := Decide(procedure, case_, session, command).value[0];
            Apply(procedure, case_, session, event).Ok? <==>
            PhaseMatchesDeficiency(session) || !event.FilingDeficiencyIssued?
  {
    MissingFieldsExactly(procedure.rule, command);
    hide MissingFields, InvalidRule, HasDuplicates, ValidDigest, CureDeadlineFrom, RoleIn;
  }

  lemma DeficiencyDecidedExactlyWhen(procedure: Procedure, case_: Case, session: Session, command: SubmitFiling)
    requires Decide(procedure, case_, session, command).Ok? && !PhaseMatchesDeficiency(session)
    ensures Decide(procedure, case_, session, command).value[0].FilingDeficiencyIssued? <==>
            FilesIntoStrandedSession(procedure, case_, session, command)
  {
    SomethingIsMissing(procedure.rule, command);
    hide MissingFields, Validate, InvalidCommandFor, CureDeadlineFrom, RoleIn, Supplied;
  }

  lemma SomethingIsMissing(rule: InitiatingFilingRule, command: SubmitFiling)
    ensures MissingFields(rule, command) != [] <==>
            exists id :: id in rule.requiredFields && !Supplied(command.fields, id)
  {
    MissingFieldsExactly(rule, command);
    hide MissingFields, Supplied;
    var missing := MissingFields(rule, command);
    if missing != [] {
      assert missing[0] in missing;
    }
  }

  // A procedure that asks for one field, a session in the deficiency phase without a deficiency, and a filing that
  // leaves the field out.
  const EXAMPLE_AUTHORITY := AuthorityBasis(AuthorityRef("rule.3", "R. 3", "2024", "A notice is filed.", None), [])
  const EXAMPLE_PROCEDURE := Procedure("procedure", [],
    InitiatingFilingRule("notice", ["counsel"], ["title"], CureDeadlineRule(14, CalendarDays, true), EXAMPLE_AUTHORITY,
                         EXAMPLE_AUTHORITY, EXAMPLE_AUTHORITY))
  const EXAMPLE_CASE := Case("case", "procedure", [CaseActor("actor", "counsel")])
  const EXAMPLE_SESSION := Session("session", "procedure", "case", DeficiencyPending, 1, None, None, [])
  const EXAMPLE_FILING := SubmitFiling("session", "first", "actor", "notice", LegalTime(0, LegalDate(0, true)),
                                       seq(64, i => '0'), [])

  lemma ExampleIsValid()
    ensures Validate(EXAMPLE_PROCEDURE, EXAMPLE_CASE, EXAMPLE_SESSION).Ok?
  {
    assert ValidAuthority(EXAMPLE_AUTHORITY);
    hide ValidAuthority;
  }

  lemma ExampleLeavesAFieldOut()
    ensures MissingFields(EXAMPLE_PROCEDURE.rule, EXAMPLE_FILING) != []
  {
    MissingFieldsExactly(EXAMPLE_PROCEDURE.rule, EXAMPLE_FILING);
    hide MissingFields;
    assert "title" in EXAMPLE_PROCEDURE.rule.requiredFields && !Supplied(EXAMPLE_FILING.fields, "title");
  }

  lemma ExampleCommandIsValid()
    ensures !InvalidCommandFor(EXAMPLE_SESSION, EXAMPLE_FILING)
    ensures RoleIn(EXAMPLE_CASE.actors, EXAMPLE_FILING.actorId) == Some("counsel")
  {
    assert forall c :: c in EXAMPLE_FILING.documentSha256 ==> IsDigestCharacter(c);
  }

  // Validation accepts that session, and there the reducer refuses what was decided.
  lemma {:induction false} ValidationAloneIsNotEnough()
    ensures Validate(EXAMPLE_PROCEDURE, EXAMPLE_CASE, EXAMPLE_SESSION).Ok? && !PhaseMatchesDeficiency(EXAMPLE_SESSION)
    ensures var decided := Decide(EXAMPLE_PROCEDURE, EXAMPLE_CASE, EXAMPLE_SESSION, EXAMPLE_FILING);
            decided.Ok? && Apply(EXAMPLE_PROCEDURE, EXAMPLE_CASE, EXAMPLE_SESSION, decided.value[0]).Err?
  {
    ExampleIsValid();
    ExampleCommandIsValid();
    ExampleLeavesAFieldOut();
    hide Validate, InvalidCommandFor, RoleIn, MissingFields, CureDeadlineFrom, ValidAuthority;
    assert "counsel" in EXAMPLE_PROCEDURE.rule.authorizedRoles;
    assert Decide(EXAMPLE_PROCEDURE, EXAMPLE_CASE, EXAMPLE_SESSION, EXAMPLE_FILING).value[0].FilingDeficiencyIssued?;
    DecidedEventAppliesExactlyWhen(EXAMPLE_PROCEDURE, EXAMPLE_CASE, EXAMPLE_SESSION, EXAMPLE_FILING);
  }

  // In every session replayed from a pristine one, whatever is decided also applies, and the
  // extended log replays to the resulting session.
  lemma {:induction false} DecidedEventExtendsLog(procedure: Procedure, case_: Case, initial: Session,
                                                  log: seq<LegalEvent>, command: SubmitFiling)
    requires Pristine(procedure, case_, initial)
    requires Replayed(procedure, case_, initial, log).Ok?
    ensures var session := Replayed(procedure, case_, initial, log).value;
            PhaseMatchesDeficiency(session)
            && (Decide(procedure, case_, session, command).Ok? ==>
                  var event := Decide(procedure, case_, session, command).value[0];
                  && Apply(procedure, case_, session, event).Ok?
                  && Replayed(procedure, case_, initial, log + [event]) == Apply(procedure, case_, session, event))
  {
    ReplayAcceptsExactlyLegalLogs(procedure, case_, initial, log);
    TheDeficiency(procedure, case_, initial, log);
    var session := Replayed(procedure, case_, initial, log).value;
    if Decide(procedure, case_, session, command).Ok? {
      var event := Decide(procedure, case_, session, command).value[0];
      DecidedEventAppliesExactlyWhen(procedure, case_, session, command);
      assert (log + [event])[..|log|] == log;
    }
  }
}

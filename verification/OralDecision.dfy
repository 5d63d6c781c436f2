/** What the bench says next, read off the transcript and the answer alone. */
module OralDecision {
  import opened Sorting
  import opened WorkflowReplay
  import opened OralEngine

  // ---------------------------------------------------------------------------------------
  // The state, read off the transcript
  // ---------------------------------------------------------------------------------------

  function Last(journal: seq<OralEvent>): OralEvent
    requires journal != []
  {
    journal[|journal| - 1]
  }

  // How many follow-ups the transcript ends with.
  function FollowUpRun(journal: seq<OralEvent>): nat {
    if journal == [] || Last(journal).bench.kind != FollowUp then 0 else FollowUpRun(journal[..|journal| - 1]) + 1
  }

  function Spoken(e: OralEvent): seq<TranscriptEntry> {
    (match e.counsel case None => [] case Some(a) => [FromCounsel(e.sequence, a.text)])
    + [FromBench(e.sequence, e.bench.seatId, e.bench.utterance, e.bench.kind)]
  }

  // A concession counts if counsel is sure of it and the time had not run out.
  function ConcededIn(bench: Bench, e: OralEvent): seq<Conceded> {
    match e.counsel
    case None => []
    case Some(a) =>
      if a.kind == Concession && a.confidence >= bench.threshold && e.bench.kind != TimeExpired
      then [Conceded(e.sequence, a.issueId, a.text)] else []
  }

  function AllSpoken(journal: seq<OralEvent>): seq<TranscriptEntry> {
    if journal == [] then [] else AllSpoken(journal[..|journal| - 1]) + Spoken(Last(journal))
  }

  function AllConceded(bench: Bench, journal: seq<OralEvent>): seq<Conceded> {
    if journal == [] then []
    else AllConceded(bench, journal[..|journal| - 1]) + ConcededIn(bench, Last(journal))
  }

  ghost predicate ReadOff(bench: Bench, s: OralState, journal: seq<OralEvent>) {
    && s.lastSeat == (if journal == [] then None else Some(Last(journal).bench.seatId))
    && s.followUps == FollowUpRun(journal)
    && s.transcript == AllSpoken(journal)
    && s.concessions == AllConceded(bench, journal)
  }

  lemma StepIsReadOff(bench: Bench, s: OralState, journal: seq<OralEvent>, e: OralEvent)
    requires ReadOff(bench, s, journal) && KeepsChain(bench, s, e)
    ensures ReadOff(bench, OralEngine.Advance(bench, s, e), journal + [e])
  {
    assert (journal + [e])[..|journal|] == journal;
    hide AllowedFollowUps, SeatById;
  }

  // Who spoke last, the follow-ups in a row, what was said and what was conceded are those of the
  // events.
  lemma {:induction false} ProjectedIsReadOff(bench: Bench, journal: seq<OralEvent>)
    requires Projected(bench, journal).Some?
    ensures ReadOff(bench, Projected(bench, journal).value, journal)
    decreases |journal|
  {
    hide ReadOff, ProjectStep, KeepsChain, OralEngine.Advance;
    if journal == [] {
      InitialIsReadOff(bench);
    } else {
      var front := journal[..|journal| - 1];
      ProjectedIsReadOff(bench, front);
      StepFacts(bench, Projected(bench, front).value, Last(journal));
      StepIsReadOff(bench, Projected(bench, front).value, front, Last(journal));
      assert front + [Last(journal)] == journal;
    }
  }

  lemma InitialIsReadOff(bench: Bench)
    ensures ReadOff(bench, Initial(bench), [])
  {
  }

  // What remains on the running clock.
  function RemainingAfter(bench: Bench, journal: seq<OralEvent>): int {
    if Expiries(journal) == 0 then bench.principalTime - PrincipalSpent(journal)
    else bench.rebuttalTime - RebuttalSpent(journal)
  }

  lemma RemainingIsReadOff(bench: Bench, s: OralState, journal: seq<OralEvent>)
    requires ClockOf(bench, s, journal) && (s.phase == Principal || s.phase == Rebuttal)
    ensures Remaining(s) == RemainingAfter(bench, journal)
  {
  }

  // ---------------------------------------------------------------------------------------
  // Which question is asked
  // ---------------------------------------------------------------------------------------

  // A question on the issue, if one is given, with a page of the record, if one is demanded.
  ghost predicate Offered(bench: Bench, issue: Option<string>, onRecord: bool, q: AuthoredQuestion) {
    && q in bench.questions
    && (issue.Some? ==> q.issueId == issue.value)
    && (onRecord ==> exists i :: 0 <= i < |q.grounding| && q.grounding[i].isRecordPage)
  }

  // None on offer is on a topic that the seat cares about more.
  ghost predicate Preferred(bench: Bench, seat: Seat, issue: Option<string>, onRecord: bool, q: AuthoredQuestion) {
    && Offered(bench, issue, onRecord, q)
    && forall p :: Offered(bench, issue, onRecord, p) && seat.weight(p.topic) >= 0.0 ==>
         seat.weight(p.topic) <= seat.weight(q.topic)
  }

  // All preferred questions, each once, by identifier.
  ghost predicate PreferredList(bench: Bench, seat: Seat, issue: Option<string>, onRecord: bool,
                                list: seq<AuthoredQuestion>)
  {
    && (forall i, j :: 0 <= i < j < |list| ==> StringLeq(list[i].id, list[j].id) && list[i] != list[j])
    && forall q :: q in list <==> Preferred(bench, seat, issue, onRecord, q)
  }

  // The one that the style of the seat gives among the preferred ones.
  ghost predicate Chosen(bench: Bench, seat: Seat, issue: Option<string>, kind: ActKind, sequence: nat,
                         onRecord: bool, q: AuthoredQuestion)
  {
    exists list :: PreferredList(bench, seat, issue, onRecord, list) && list != []
                   && q == list[bench.choice(seat, kind, sequence) % |list|]
  }

  lemma QuestionsCompare()
    ensures TotalPreorder(QuestionLeq)
  {
    StringOrderIsTotal();
  }

  lemma {:induction false} CandidatesAre(questions: seq<AuthoredQuestion>, issueId: string, onRecord: bool)
    ensures forall q :: q in questions && (issueId != "" ==> q.issueId == issueId)
                        && (onRecord ==> HasRecordPage(q.grounding)) ==>
              q in Candidates(questions, issueId, onRecord)
    ensures Distinct(questions) ==> Distinct(Candidates(questions, issueId, onRecord))
    decreases |questions|
  {
    hide HasRecordPage;
    if questions != [] {
      CandidatesAre(questions[1..], issueId, onRecord);
      assert questions == [questions[0]] + questions[1..];
      assert Distinct(questions) ==> questions[0] !in questions[1..];
    }
  }

  lemma {:induction false} HeaviestIsMaximal(seat: Seat, questions: seq<AuthoredQuestion>)
    ensures forall q :: q in questions ==> seat.weight(q.topic) <= HeaviestWeight(seat, questions)
    ensures HeaviestWeight(seat, questions) == -1.0
            || exists q :: q in questions && seat.weight(q.topic) == HeaviestWeight(seat, questions)
    decreases |questions|
  {
    if questions != [] {
      HeaviestIsMaximal(seat, questions[1..]);
      assert questions == [questions[0]] + questions[1..];
    }
  }

  lemma {:induction false} WithWeightKeepsOrder(seat: Seat, questions: seq<AuthoredQuestion>, weight: real)
    requires Sorted(questions, QuestionLeq) && Distinct(questions)
    ensures Sorted(WithWeight(seat, questions, weight), QuestionLeq) && Distinct(WithWeight(seat, questions, weight))
    ensures forall q :: q in WithWeight(seat, questions, weight) <==> q in questions && seat.weight(q.topic) == weight
    decreases |questions|
  {
    hide QuestionLeq;
    if questions != [] {
      WithWeightKeepsOrder(seat, questions[1..], weight);
      assert questions == [questions[0]] + questions[1..];
      forall q | q in questions[1..] ensures QuestionLeq(questions[0], q) && q != questions[0] {
        var i :| 0 <= i < |questions[1..]| && questions[1..][i] == q;
        assert questions[i + 1] == q;
      }
    }
  }

  function Issue(issueId: string): Option<string> {
    if issueId == "" then None else Some(issueId)
  }

  lemma RecordPageByIndex(q: AuthoredQuestion)
    ensures HasRecordPage(q.grounding) <==> exists i :: 0 <= i < |q.grounding| && q.grounding[i].isRecordPage
  {
    if HasRecordPage(q.grounding) {
      var g :| g in q.grounding && g.isRecordPage;
    }
    assert forall i :: 0 <= i < |q.grounding| ==> q.grounding[i] in q.grounding;
  }

  lemma CandidatesAreOffered(bench: Bench, issueId: string, onRecord: bool)
    ensures forall q :: q in Candidates(bench.questions, issueId, onRecord) <==>
                        Offered(bench, Issue(issueId), onRecord, q)
  {
    CandidatesAre(bench.questions, issueId, onRecord);
    forall q: AuthoredQuestion
      ensures HasRecordPage(q.grounding) <==> exists i :: 0 <= i < |q.grounding| && q.grounding[i].isRecordPage
    {
      RecordPageByIndex(q);
    }
    hide HasRecordPage;
  }

  // A question is chosen whenever one is on offer, and it is the chosen one of the preferred.
  lemma {:induction false} ChoiceIsPreferred(bench: Bench, seat: Seat, issueId: string, kind: ActKind, sequence: nat,
                                             onRecord: bool)
    requires Distinct(bench.questions)
    ensures var q := ChooseQuestion(bench, seat, issueId, kind, sequence, onRecord);
            && (q.None? <==> forall p :: !Offered(bench, Issue(issueId), onRecord, p))
            && (q.Some? ==> Chosen(bench, seat, Issue(issueId), kind, sequence, onRecord, q.value))
  {
    hide Offered, QuestionLeq, HasRecordPage, Candidates, HeaviestWeight, Issue;
    CandidatesAre(bench.questions, issueId, onRecord);
    CandidatesAreOffered(bench, issueId, onRecord);
    var candidates := Candidates(bench.questions, issueId, onRecord);
    QuestionsCompare();
    SortSorts(candidates, QuestionLeq);
    SortKeepsDistinct(candidates, QuestionLeq);
    var sorted := Sort(candidates, QuestionLeq);
    var heaviest := HeaviestWeight(seat, sorted);
    HeaviestIsMaximal(seat, sorted);
    WithWeightKeepsOrder(seat, sorted, heaviest);
    var best := if heaviest >= 0.0 then WithWeight(seat, sorted, heaviest) else sorted;
    assert best == [] <==> sorted == [];
    ListIsPreferred(bench, seat, Issue(issueId), onRecord, sorted, heaviest, best);
    if best != [] {
      assert ChooseQuestion(bench, seat, issueId, kind, sequence, onRecord)
          == Some(best[bench.choice(seat, kind, sequence) % |best|]);
    } else {
      forall p ensures !Offered(bench, Issue(issueId), onRecord, p) {
        assert p !in sorted;
      }
    }
    if ChooseQuestion(bench, seat, issueId, kind, sequence, onRecord).Some? {
      assert best[0] in sorted;
    }
  }

  lemma ListIsPreferred(bench: Bench, seat: Seat, issue: Option<string>, onRecord: bool,
                        sorted: seq<AuthoredQuestion>, heaviest: real, best: seq<AuthoredQuestion>)
    requires forall q :: q in sorted <==> Offered(bench, issue, onRecord, q)
    requires forall q :: q in sorted ==> seat.weight(q.topic) <= heaviest
    requires heaviest < 0.0 || exists q :: q in sorted && seat.weight(q.topic) == heaviest
    requires Sorted(best, QuestionLeq) && Distinct(best)
    requires forall q :: q in best <==> q in sorted && (heaviest >= 0.0 ==> seat.weight(q.topic) == heaviest)
    ensures PreferredList(bench, seat, issue, onRecord, best)
  {
    hide Offered;
    forall q ensures q in best <==> Preferred(bench, seat, issue, onRecord, q) {
    }
  }

  // ---------------------------------------------------------------------------------------
  // What is asked
  // ---------------------------------------------------------------------------------------

  // The question as it was authored, with its grounding in the order of the identifiers.
  ghost predicate Selects(selection: Selection, q: AuthoredQuestion, mode: string) {
    && selection.questionId == q.id && selection.topic == q.topic && selection.mode == mode
    && selection.prompt == q.prompt && multiset(selection.grounding) == multiset(q.grounding)
    && forall i, j :: 0 <= i < j < |selection.grounding| ==>
         StringLeq(selection.grounding[i].id, selection.grounding[j].id)
  }

  lemma SelectedSelects(q: AuthoredQuestion, mode: string)
    ensures Selects(Selected(q, mode), q, mode)
  {
    StringOrderIsTotal();
    SortSorts(q.grounding, GroundingLeq);
  }

  // The seat asks a question on the issue, in the words its voice makes of it.
  ghost predicate Asks(bench: Bench, e: OralEvent, seat: Seat, issue: Option<string>, onRecord: bool,
                       parent: Option<nat>, recalls: bool)
  {
    && e.bench.seatId == seat.id
    && e.bench.question.Some?
    && e.bench.question.value.parent == parent && e.bench.question.value.recallsConcession == recalls
    && Some(e.bench.utterance) == bench.wording(seat, e.bench.kind, e.bench.question.value, e.sequence)
    && exists q :: Chosen(bench, seat, issue, e.bench.kind, e.sequence, onRecord, q)
                   && e.bench.question.value.issueId == q.issueId
                   && Selects(e.bench.question.value.selection, q, bench.mode)
  }

  // A claim about the record by counsel who cites no page of it, where the bank knows a page and the
  // seat insists.
  ghost predicate WantsThePage(bench: Bench, seat: Seat, a: Answer) {
    && a.kind == RecordClaim && seat.recordPinDemand >= 0.5
    && (exists q :: Offered(bench, Some(a.issueId), true, q))
    && forall q, i, j :: q in bench.questions && q.issueId == a.issueId && 0 <= i < |q.grounding|
                         && q.grounding[i].isRecordPage && 0 <= j < |a.cited| ==>
         a.cited[j] != q.grounding[i].id
  }

  // Unsure counsel is asked to clarify; then a page is demanded, then a concession recalled, then
  // come hypotheticals and interruptions as the seat is given to them, and else a follow-up or, from
  // the next seat, a new question.
  ghost predicate KindFits(bench: Bench, seat: Seat, goesOn: bool, a: Answer, kind: ActKind) {
    var unsure := a.confidence < bench.threshold;
    var page := !unsure && WantsThePage(bench, seat, a);
    var recalls := !unsure && !page && a.kind == Concession && goesOn && seat.concessionRecall >= 0.5;
    var open := !unsure && !page && !recalls;
    && (kind == ClarificationRequest <==> unsure)
    && (kind == RecordPinDemand <==> page)
    && (kind == Hypothetical <==> open && seat.hypotheticalFrequency >= 0.6)
    && (kind == Interruption <==> open && seat.hypotheticalFrequency < 0.6 && seat.interruptionFrequency >= 0.6)
    && (kind == Question <==>
          open && seat.hypotheticalFrequency < 0.6 && seat.interruptionFrequency < 0.6 && !goesOn)
    && kind != TimeExpired
  }

  // The presiding seat ends the phase when counsel used all that remained, and says which clock ran
  // out and whether another is left.
  ghost predicate Expires(bench: Bench, journal: seq<OralEvent>, e: OralEvent) {
    && e.bench.kind == TimeExpired && e.bench.seatId == bench.presiding && e.bench.question.None?
    && exists i :: 0 <= i < |bench.seats| && bench.seats[i].id == bench.presiding
                   && e.bench.utterance == ExpiryNotice(bench.seats[i], Expiries(journal) == 0, bench.rebuttalTime > 0)
  }

  function ExpiryNotice(seat: Seat, principal: bool, hasRebuttal: bool): string {
    (match seat.address case Counsel => "Counsel" case Advocate => "Advocate")
    + ", your "
    + (if principal then "principal" else "rebuttal")
    + (if seat.timeStrictness < 0.5 then " allotted time has now concluded" else " time has expired")
    + (if principal && hasRebuttal then "; rebuttal time remains." else ".")
  }

  // The seat at this position goes on while it may; then the one after it speaks, and after the last
  // the first.
  ghost predicate SpeaksAfter(bench: Bench, journal: seq<OralEvent>, i: int, goesOn: bool, seat: Seat)
    requires journal != []
  {
    && 0 <= i < |bench.seats| && bench.seats[i].id == Last(journal).bench.seatId
    && (goesOn <==> FollowUpRun(journal) < AllowedFollowUps(bench, bench.seats[i]))
    && seat == bench.seats[if goesOn then i else (i + 1) % |bench.seats|]
  }

  // The answer in the state that the transcript leads to.
  ghost predicate AnswersAs(bench: Bench, journal: seq<OralEvent>, a: Answer, e: OralEvent)
    requires journal != []
  {
    && e.sequence == |journal| + 1 && e.counsel == Some(a)
    && if a.elapsed >= RemainingAfter(bench, journal) then Expires(bench, journal, e)
       else exists i, goesOn, seat :: SpeaksAfter(bench, journal, i, goesOn, seat)
              && KindFits(bench, seat, goesOn, a, e.bench.kind)
              && Asks(bench, e, seat, Some(a.issueId), OnRecord(e.bench.kind), Some(|journal|),
                      Recalls(seat, e.bench.kind, a))
  }

  // The presiding seat opens with any question of the bank.
  ghost predicate OpensAs(bench: Bench, e: OralEvent) {
    && e.sequence == 1 && e.counsel.None? && e.bench.kind == Question
    && exists i :: 0 <= i < |bench.seats| && bench.seats[i].id == bench.presiding
                   && Asks(bench, e, bench.seats[i], None, false, None, false)
  }

  // ---------------------------------------------------------------------------------------
  // What is decided is what the transcript and the answer call for
  // ---------------------------------------------------------------------------------------

  lemma QuestionsAreDistinct(bench: Bench)
    requires ValidBench(bench)
    ensures Distinct(bench.questions)
  {
  }

  lemma MadeActAsks(bench: Bench, seat: Seat, issueId: string, kind: ActKind, sequence: nat, onRecord: bool,
                    parent: Option<nat>, recalls: bool, e: OralEvent)
    requires ValidBench(bench) && e.sequence == sequence
    requires var q := ChooseQuestion(bench, seat, issueId, kind, sequence, onRecord);
             q.Some? && MakeAct(bench, seat, q.value, kind, sequence, parent, recalls) == Some(e.bench)
    ensures e.bench.kind == kind && Asks(bench, e, seat, Issue(issueId), onRecord, parent, recalls)
  {
    var q := ChooseQuestion(bench, seat, issueId, kind, sequence, onRecord).value;
    QuestionsAreDistinct(bench);
    ChoiceIsPreferred(bench, seat, issueId, kind, sequence, onRecord);
    SelectedSelects(q, bench.mode);
    hide ChooseQuestion, Chosen, Selects, Selected, ValidBench, Issue;
  }

  lemma WantsThePageExactlyWhen(bench: Bench, turn: Turn, a: Answer)
    requires a.issueId != ""
    ensures DemandsRecord(bench, turn, a) <==> WantsThePage(bench, turn.seat, a)
  {
    forall q: AuthoredQuestion
      ensures HasRecordPage(q.grounding) <==> exists i :: 0 <= i < |q.grounding| && q.grounding[i].isRecordPage
    {
      RecordPageByIndex(q);
    }
    PagesAreOffered(bench, a);
    forall j | 0 <= j < |a.cited| {
      CitesByIndex(bench, a.issueId, a.cited[j]);
    }
    hide Offered, CitesRecord, HasRecordPage;
  }

  lemma PagesAreOffered(bench: Bench, a: Answer)
    ensures (exists q :: q in bench.questions && q.issueId == a.issueId && HasRecordPage(q.grounding)) <==>
            exists q :: Offered(bench, Some(a.issueId), true, q)
  {
    forall q: AuthoredQuestion
      ensures HasRecordPage(q.grounding) <==> exists i :: 0 <= i < |q.grounding| && q.grounding[i].isRecordPage
    {
      RecordPageByIndex(q);
    }
    hide HasRecordPage;
    if q :| q in bench.questions && q.issueId == a.issueId && HasRecordPage(q.grounding) {
      assert Offered(bench, Some(a.issueId), true, q);
    }
  }

  lemma CitesByIndex(bench: Bench, issueId: string, id: string)
    ensures CitesRecord(bench, issueId, id) <==>
            exists q, i :: q in bench.questions && q.issueId == issueId && 0 <= i < |q.grounding|
                           && q.grounding[i].isRecordPage && q.grounding[i].id == id
  {
    if CitesRecord(bench, issueId, id) {
      var q, g :| q in bench.questions && q.issueId == issueId && g in q.grounding && g.id == id && g.isRecordPage;
      var i :| 0 <= i < |q.grounding| && q.grounding[i] == g;
    }
    if q, i :| q in bench.questions && q.issueId == issueId && 0 <= i < |q.grounding|
               && q.grounding[i].isRecordPage && q.grounding[i].id == id {
      assert q.grounding[i] in q.grounding;
    }
  }

  lemma NextKindFits(bench: Bench, turn: Turn, a: Answer)
    requires a.issueId != ""
    ensures KindFits(bench, turn.seat, turn.continues, a, NextKind(bench, turn, a))
  {
    WantsThePageExactlyWhen(bench, turn, a);
    hide DemandsRecord, WantsThePage;
  }

  lemma SelectedSpeaks(bench: Bench, s: OralState, journal: seq<OralEvent>, turn: Turn)
    requires journal != [] && ReadOff(bench, s, journal) && SelectSeat(bench, s) == Some(turn)
    ensures exists i :: SpeaksAfter(bench, journal, i, turn.continues, turn.seat)
  {
    hide AllowedFollowUps, FollowUpRun, AllSpoken, AllConceded;
    var i := IndexOfSeat(bench.seats, Last(journal).bench.seatId).value;
    Wrap(i, |bench.seats|);
    hide IndexOfSeat;
    assert SpeaksAfter(bench, journal, i, turn.continues, turn.seat);
  }

  lemma AskedAnswersAs(bench: Bench, s: OralState, journal: seq<OralEvent>, a: Answer, turn: Turn, e: OralEvent)
    requires ValidBench(bench) && a.issueId != "" && journal != []
    requires s.nextSequence == |journal| + 1 && a.elapsed < RemainingAfter(bench, journal)
    requires exists i :: SpeaksAfter(bench, journal, i, turn.continues, turn.seat)
    requires AskNext(bench, s, a, turn) == Some(e)
    ensures AnswersAs(bench, journal, a, e)
  {
    var kind := NextKind(bench, turn, a);
    NextKindFits(bench, turn, a);
    WantsThePageExactlyWhen(bench, turn, a);
    hide DemandsRecord, WantsThePage, ChooseQuestion, MakeAct, Asks, SpeaksAfter, RemainingAfter, ValidBench;
    var recalls := a.confidence >= bench.threshold && !DemandsRecord(bench, turn, a)
                   && RecallsConcession(bench, turn, a);
    MadeActAsks(bench, turn.seat, a.issueId, kind, s.nextSequence, kind == RecordPinDemand, Some(|journal|), recalls,
                e);
    assert recalls == Recalls(turn.seat, kind, a) && OnRecord(kind) == (kind == RecordPinDemand);
    var i :| SpeaksAfter(bench, journal, i, turn.continues, turn.seat);
    hide NextKind, KindFits;
  }

  lemma RebuttalIsLeft(bench: Bench, s: OralState, journal: seq<OralEvent>)
    requires ClockOf(bench, s, journal) && (s.phase == Principal || s.phase == Rebuttal)
    ensures s.phase == Principal <==> Expiries(journal) == 0
    ensures s.phase == Principal ==> (s.rebuttalRemaining > 0 <==> bench.rebuttalTime > 0)
  {
  }

  lemma NoticeIsRendered(bench: Bench, s: OralState, journal: seq<OralEvent>, seat: Seat)
    requires ClockOf(bench, s, journal) && (s.phase == Principal || s.phase == Rebuttal)
    ensures RenderExpiration(seat, s.phase, s.phase == Principal && s.rebuttalRemaining > 0)
         == ExpiryNotice(seat, Expiries(journal) == 0, bench.rebuttalTime > 0)
  {
    RebuttalIsLeft(bench, s, journal);
    hide ClockOf;
  }

  lemma ExpiredAnswersAs(bench: Bench, s: OralState, journal: seq<OralEvent>, a: Answer, e: OralEvent)
    requires journal != [] && s.nextSequence == |journal| + 1 && a.elapsed >= RemainingAfter(bench, journal)
    requires ClockOf(bench, s, journal) && (s.phase == Principal || s.phase == Rebuttal)
    requires ValidBench(bench) && ExpireTime(bench, s, a) == Some(e)
    ensures AnswersAs(bench, journal, a, e)
  {
    SeatIsAmong(bench.seats, bench.presiding);
    var seat := SeatById(bench.seats, bench.presiding).value;
    var i :| 0 <= i < |bench.seats| && bench.seats[i] == seat;
    NoticeIsRendered(bench, s, journal, seat);
    hide RemainingAfter, RenderExpiration, ExpiryNotice, ClockOf, ValidBench;
  }

  // Whatever is decided on an answer is what the transcript and the answer call for.
  lemma {:induction false} DecisionIsCalledFor(bench: Bench, s: OralState, a: Answer, e: OralEvent)
    requires ValidBench(bench) && Projected(bench, s.journal) == Some(s) && s.journal != []
    requires ValidAnswer(bench, a) && AnswerUnchecked(bench, s, a) == Some(e)
    ensures AnswersAs(bench, s.journal, a, e)
  {
    hide Projected, ValidBench, ReadOff, ShapeOf, ClockOf, Remaining, RemainingAfter, SelectSeat, AskNext, ExpireTime,
         AnswersAs, SpeaksAfter;
    ProjectedIsSound(bench, s.journal);
    ProjectedIsReadOff(bench, s.journal);
    RemainingIsReadOff(bench, s, s.journal);
    PhaseNotStarted(bench, s);
    var turn := SelectSeat(bench, s).value;
    SelectedSpeaks(bench, s, s.journal, turn);
    if a.elapsed >= Remaining(s) {
      ExpiredAnswersAs(bench, s, s.journal, a, e);
    } else {
      AskedAnswersAs(bench, s, s.journal, a, turn, e);
    }
  }

  // The same of the checked decision.
  lemma AnswerIsCalledFor(bench: Bench, s: OralState, a: Answer)
    requires s.journal != [] && DecideAnswer(bench, s, a).Some?
    ensures AnswersAs(bench, s.journal, a, DecideAnswer(bench, s, a).value)
  {
    hide Projected, ValidBench, ValidAnswer, AnswerUnchecked, AnswersAs, WithinLimits;
    DecisionIsCalledFor(bench, s, a, DecideAnswer(bench, s, a).value);
  }

  lemma OpeningIsCalledFor(bench: Bench, s: OralState, e: OralEvent)
    requires ValidBench(bench) && Projected(bench, []) == Some(s) && OpeningUnchecked(bench, s) == Some(e)
    ensures OpensAs(bench, e)
  {
    SeatIsAmong(bench.seats, bench.presiding);
    var seat := SeatById(bench.seats, bench.presiding).value;
    var i :| 0 <= i < |bench.seats| && bench.seats[i] == seat;
    hide ChooseQuestion, MakeAct, Asks, ValidBench;
    MadeActAsks(bench, seat, "", Question, 1, false, None, false, e);
  }

  lemma PrefixProjects(bench: Bench, journal: seq<OralEvent>, k: nat)
    requires k < |journal| && Projected(bench, journal).Some?
    ensures Projected(bench, journal[..k]).Some?
    ensures ProjectStep(bench, Projected(bench, journal[..k]).value, journal[k]).Some?
  {
    hide ProjectStep;
    if Projected(bench, journal[..k + 1]).None? {
      RefusedProjection(bench, journal, k + 1);
    }
    assert journal[..k + 1][..k] == journal[..k];
  }

  // Every event of a transcript that is accepted, wherever it stands, is what the events before it and its own answer
  // call for.
  lemma {:induction false} EveryEventIsCalledFor(bench: Bench, journal: seq<OralEvent>, k: nat)
    requires ValidBench(bench) && Projected(bench, journal).Some? && k < |journal|
    ensures k == 0 ==> OpensAs(bench, journal[0])
    ensures k > 0 ==>
              journal[k].counsel.Some? && AnswersAs(bench, journal[..k], journal[k].counsel.value, journal[k])
  {
    hide Projected, ValidBench, ValidAnswer, ProjectStep, OpensAs, AnswersAs, ShapeOf, ClockOf, OpeningUnchecked,
         AnswerUnchecked;
    PrefixProjects(bench, journal, k);
    var s, e := Projected(bench, journal[..k]).value, journal[k];
    ProjectedIsSound(bench, journal[..k]);
    JournalIs(bench, s, journal[..k]);
    StepFacts(bench, s, e);
    CounselIsValid(bench, e);
    if k == 0 {
      OpeningIsCalledFor(bench, s, e);
    } else {
      DecisionIsCalledFor(bench, s, e.counsel.value, e);
    }
  }

  lemma JournalIs(bench: Bench, s: OralState, journal: seq<OralEvent>)
    ensures ShapeOf(bench, s, journal) ==> s.journal == journal
  {
  }

  // ---------------------------------------------------------------------------------------
  // Which answers are decided
  // ---------------------------------------------------------------------------------------

  // A bounded answer on an issue of the bench that took some time, citing different passages that the
  // bank has on that issue.
  ghost predicate ProperAnswer(bench: Bench, a: Answer) {
    && 0 < |a.text| <= 16384 && a.issueId in bench.issues && NamespacedId(a.issueId)
    && 0.0 <= a.confidence <= 1.0 && 1 <= a.elapsed <= 86400 && |a.cited| <= 32
    && (forall i, j :: 0 <= i < j < |a.cited| ==> a.cited[i] != a.cited[j])
    && forall i :: 0 <= i < |a.cited| ==> NamespacedId(a.cited[i]) && Passage(bench, a.issueId, a.cited[i])
  }

  ghost predicate Passage(bench: Bench, issueId: string, id: string) {
    exists q, i :: q in bench.questions && q.issueId == issueId && 0 <= i < |q.grounding| && q.grounding[i].id == id
  }

  lemma ProperExactlyWhen(bench: Bench, a: Answer)
    ensures ProperAnswer(bench, a) <==> ValidAnswer(bench, a)
  {
    hide NamespacedId;
    forall id ensures Cites(bench, a.issueId, id) <==> Passage(bench, a.issueId, id) {
      if Cites(bench, a.issueId, id) {
        var q, g :| q in bench.questions && q.issueId == a.issueId && g in q.grounding && g.id == id;
        var i :| 0 <= i < |q.grounding| && q.grounding[i] == g;
      }
      if Passage(bench, a.issueId, id) {
        var q, i :| q in bench.questions && q.issueId == a.issueId && 0 <= i < |q.grounding|
            && q.grounding[i].id == id;
        assert q.grounding[i] in q.grounding;
      }
    }
    hide Cites, Passage;
  }

  // The voice of the seat in turn finds words of bounded length for the question that is chosen.
  ghost predicate FindsWords(bench: Bench, journal: seq<OralEvent>, a: Answer)
    requires journal != []
  {
    exists i, goesOn, seat, kind ::
      && SpeaksAfter(bench, journal, i, goesOn, seat) && KindFits(bench, seat, goesOn, a, kind)
      && Worded(bench, |journal| + 1, a, seat, kind, Recalls(seat, kind, a))
  }

  // The question refers back to the concession just made.
  ghost predicate Recalls(seat: Seat, kind: ActKind, a: Answer) {
    kind == FollowUp && a.kind == Concession && seat.concessionRecall >= 0.5
  }

  ghost predicate Worded(bench: Bench, sequence: nat, a: Answer, seat: Seat, kind: ActKind, recalls: bool)
    requires sequence > 0
  {
    var parent := Some(sequence - 1);
    exists q :: Chosen(bench, seat, Some(a.issueId), kind, sequence, OnRecord(kind), q)
                && Utters(bench, seat, kind, q, parent, sequence, recalls)
  }

  ghost predicate OnRecord(kind: ActKind) {
    kind == RecordPinDemand
  }

  ghost predicate Utters(bench: Bench, seat: Seat, kind: ActKind, q: AuthoredQuestion, parent: Option<nat>,
                         sequence: nat, recalls: bool)
  {
    var question := GroundedQuestion(q.issueId, Selected(q, bench.mode), parent, recalls);
    match bench.wording(seat, kind, question, sequence)
    case None => false
    case Some(text) => 0 < |text| <= 32768
  }

  lemma ChosenIsOne(bench: Bench, seat: Seat, issueId: string, kind: ActKind, sequence: nat, onRecord: bool,
                    q: AuthoredQuestion)
    requires ValidBench(bench) && Chosen(bench, seat, Issue(issueId), kind, sequence, onRecord, q)
    ensures ChooseQuestion(bench, seat, issueId, kind, sequence, onRecord) == Some(q)
  {
    hide ChooseQuestion, Preferred, Issue;
    QuestionsAreDistinct(bench);
    ChoiceIsPreferred(bench, seat, issueId, kind, sequence, onRecord);
    var a :| PreferredList(bench, seat, Issue(issueId), onRecord, a) && a != []
        && q == a[bench.choice(seat, kind, sequence) % |a|];
    PreferredAreOffered(bench, seat, Issue(issueId), onRecord, a[0]);
    var p := ChooseQuestion(bench, seat, issueId, kind, sequence, onRecord).value;
    var b :| PreferredList(bench, seat, Issue(issueId), onRecord, b) && b != []
        && p == b[bench.choice(seat, kind, sequence) % |b|];
    PreferredListIsOne(bench, seat, Issue(issueId), onRecord, a, b);
  }

  lemma PreferredAreOffered(bench: Bench, seat: Seat, issue: Option<string>, onRecord: bool, q: AuthoredQuestion)
    requires Preferred(bench, seat, issue, onRecord, q)
    ensures Offered(bench, issue, onRecord, q) && q in bench.questions
  {
  }

  lemma PreferredListIsOne(bench: Bench, seat: Seat, issue: Option<string>, onRecord: bool, a: seq<AuthoredQuestion>,
                           b: seq<AuthoredQuestion>)
    requires ValidBench(bench)
    requires PreferredList(bench, seat, issue, onRecord, a) && PreferredList(bench, seat, issue, onRecord, b)
    ensures a == b
  {
    QuestionsCompare();
    StringOrderIsTotal();
    forall x, y | x in a && y in a && QuestionLeq(x, y) && QuestionLeq(y, x) ensures x == y {
      PreferredAreOffered(bench, seat, issue, onRecord, x);
      PreferredAreOffered(bench, seat, issue, onRecord, y);
      assert x.id == y.id;
    }
    hide Preferred, ValidBench;
    SortedEnumerationIsUnique(a, b, QuestionLeq);
  }

  lemma KindIsOne(bench: Bench, seat: Seat, goesOn: bool, a: Answer, k: ActKind, l: ActKind)
    requires KindFits(bench, seat, goesOn, a, k) && KindFits(bench, seat, goesOn, a, l)
    ensures k == l
  {
    hide WantsThePage;
  }

  lemma SpeakerIsOne(bench: Bench, s: OralState, journal: seq<OralEvent>, i: int, goesOn: bool, seat: Seat)
    requires ValidBench(bench) && journal != [] && ReadOff(bench, s, journal)
    requires SpeaksAfter(bench, journal, i, goesOn, seat)
    ensures SelectSeat(bench, s) == Some(Turn(seat, goesOn))
  {
    hide AllowedFollowUps, FollowUpRun, AllSpoken, AllConceded;
    var j := IndexOfSeat(bench.seats, Last(journal).bench.seatId).value;
    assert i == j;
    Wrap(i, |bench.seats|);
  }

  // A concession is recalled exactly by a follow-up of a seat that recalls.
  lemma RecallingFollowsUp(bench: Bench, turn: Turn, a: Answer)
    ensures var kind := NextKind(bench, turn, a);
            a.confidence >= bench.threshold && !DemandsRecord(bench, turn, a) && RecallsConcession(bench, turn, a) <==>
            Recalls(turn.seat, kind, a)
  {
    hide DemandsRecord;
  }

  lemma AskNextExactlyWhen(bench: Bench, s: OralState, journal: seq<OralEvent>, a: Answer, turn: Turn)
    requires journal != [] && s.nextSequence == |journal| + 1
    ensures var kind := NextKind(bench, turn, a);
            var q := ChooseQuestion(bench, turn.seat, a.issueId, kind, |journal| + 1, OnRecord(kind));
            AskNext(bench, s, a, turn).Some? <==>
            && q.Some?
            && Utters(bench, turn.seat, kind, q.value, Some(|journal|), |journal| + 1, Recalls(turn.seat, kind, a))
  {
    RecallingFollowsUp(bench, turn, a);
    hide NextKind, DemandsRecord, RecallsConcession, ChooseQuestion, Selected, Recalls;
  }

  lemma AskingFindsWords(bench: Bench, s: OralState, journal: seq<OralEvent>, a: Answer, turn: Turn)
    requires ValidBench(bench) && a.issueId != "" && journal != [] && s.nextSequence == |journal| + 1
    requires exists i :: SpeaksAfter(bench, journal, i, turn.continues, turn.seat)
    requires AskNext(bench, s, a, turn).Some?
    ensures FindsWords(bench, journal, a)
  {
    var kind := NextKind(bench, turn, a);
    NextKindFits(bench, turn, a);
    AskNextExactlyWhen(bench, s, journal, a, turn);
    QuestionsAreDistinct(bench);
    ChoiceIsPreferred(bench, turn.seat, a.issueId, kind, |journal| + 1, OnRecord(kind));
    hide ValidBench, ChooseQuestion, Chosen, SpeaksAfter, NextKind, KindFits, AskNext, Utters, Recalls, OnRecord;
    assert Worded(bench, |journal| + 1, a, turn.seat, kind, Recalls(turn.seat, kind, a));
    var i :| SpeaksAfter(bench, journal, i, turn.continues, turn.seat);
  }

  lemma FoundWordsAreAsked(bench: Bench, s: OralState, journal: seq<OralEvent>, a: Answer, turn: Turn)
    requires ValidBench(bench) && a.issueId != "" && journal != [] && s.nextSequence == |journal| + 1
    requires ReadOff(bench, s, journal) && SelectSeat(bench, s) == Some(turn)
    requires FindsWords(bench, journal, a)
    ensures AskNext(bench, s, a, turn).Some?
  {
    hide WantsThePage, ValidBench, ReadOff, ChooseQuestion, Chosen, SpeaksAfter, Selected, SelectSeat, DemandsRecord,
         KindFits, NextKind;
    var i, goesOn, seat, kind :|
        && SpeaksAfter(bench, journal, i, goesOn, seat) && KindFits(bench, seat, goesOn, a, kind)
        && Worded(bench, |journal| + 1, a, seat, kind, Recalls(seat, kind, a));
    SpeakerIsOne(bench, s, journal, i, goesOn, seat);
    WordsAreAsked(bench, s, journal, a, turn, kind);
  }

  lemma WordsAreAsked(bench: Bench, s: OralState, journal: seq<OralEvent>, a: Answer, turn: Turn, kind: ActKind)
    requires ValidBench(bench) && a.issueId != "" && journal != [] && s.nextSequence == |journal| + 1
    requires KindFits(bench, turn.seat, turn.continues, a, kind)
    requires Worded(bench, |journal| + 1, a, turn.seat, kind, Recalls(turn.seat, kind, a))
    ensures AskNext(bench, s, a, turn).Some?
  {
    NextKindFits(bench, turn, a);
    KindIsOne(bench, turn.seat, turn.continues, a, kind, NextKind(bench, turn, a));
    AskNextExactlyWhen(bench, s, journal, a, turn);
    hide ValidBench, ChooseQuestion, Chosen, NextKind, KindFits, AskNext, Utters, Recalls, OnRecord;
    var q :| Chosen(bench, turn.seat, Some(a.issueId), kind, |journal| + 1, OnRecord(kind), q)
        && Utters(bench, turn.seat, kind, q, Some(|journal|), |journal| + 1, Recalls(turn.seat, kind, a));
    ChosenIsOne(bench, turn.seat, a.issueId, kind, |journal| + 1, OnRecord(kind), q);
  }

  lemma AskedExactlyWhen(bench: Bench, s: OralState, a: Answer, turn: Turn)
    requires ValidBench(bench) && a.issueId != "" && s.journal != [] && s.nextSequence == |s.journal| + 1
    requires ReadOff(bench, s, s.journal) && SelectSeat(bench, s) == Some(turn)
    ensures AskNext(bench, s, a, turn).Some? <==> FindsWords(bench, s.journal, a)
  {
    hide ValidBench, ReadOff, SelectSeat, AskNext, FindsWords, SpeaksAfter;
    SelectedSpeaks(bench, s, s.journal, turn);
    if AskNext(bench, s, a, turn).Some? {
      AskingFindsWords(bench, s, s.journal, a, turn);
    }
    if FindsWords(bench, s.journal, a) {
      FoundWordsAreAsked(bench, s, s.journal, a, turn);
    }
  }

  lemma TurnIsSet(bench: Bench, s: OralState)
    requires ValidBench(bench) && Projected(bench, s.journal) == Some(s) && s.journal != []
    ensures SelectSeat(bench, s).Some?
  {
    hide ValidBench, AllowedFollowUps, ProjectStep, Projected, ShapeOf, ClockOf, DecisionFor;
    PrefixProjects(bench, s.journal, |s.journal| - 1);
    StepFacts(bench, Projected(bench, s.journal[..|s.journal| - 1]).value, Last(s.journal));
    ProjectedIsReadOff(bench, s.journal);
  }

  lemma ExpiryIsSpoken(bench: Bench, s: OralState, a: Answer)
    requires ValidBench(bench)
    ensures ExpireTime(bench, s, a).Some?
  {
  }

  // What the state says in the terms of its transcript.
  lemma StateIsReadOff(bench: Bench, s: OralState)
    requires ValidBench(bench) && Projected(bench, s.journal) == Some(s) && s.journal != []
    ensures s.phase == PhaseAfter(bench, s.journal) && s.nextSequence == |s.journal| + 1
    ensures ReadOff(bench, s, s.journal) && SelectSeat(bench, s).Some?
    ensures s.phase == Principal || s.phase == Rebuttal ==> Remaining(s) == RemainingAfter(bench, s.journal)
  {
    ProjectedIsSound(bench, s.journal);
    ProjectedIsReadOff(bench, s.journal);
    TurnIsSet(bench, s);
    assert s.phase == PhaseAfter(bench, s.journal) && s.nextSequence == |s.journal| + 1;
    hide ValidBench, ReadOff, ShapeOf, ClockOf, Projected, RemainingAfter, PhaseAfter, SelectSeat, Remaining;
    if s.phase == Principal || s.phase == Rebuttal {
      RemainingIsReadOff(bench, s, s.journal);
    }
  }

  lemma UncheckedExactlyWhen(bench: Bench, s: OralState, a: Answer)
    requires SelectSeat(bench, s).Some? && ExpireTime(bench, s, a).Some? && a.issueId in bench.issues
    ensures AnswerUnchecked(bench, s, a).Some? <==>
            && |s.journal| < 64 && (s.phase == Principal || s.phase == Rebuttal)
            && (a.elapsed >= Remaining(s) || AskNext(bench, s, a, SelectSeat(bench, s).value).Some?)
  {
    hide SelectSeat, ExpireTime, AskNext, Remaining;
  }

  // An answer is decided exactly when it is proper, a clock runs and there is room for an event, and
  // either the time is over or the seat in turn finds words for the chosen question.
  lemma {:induction false} DecidedExactlyWhen(bench: Bench, s: OralState, a: Answer)
    requires ValidBench(bench) && ValidState(bench, s) && s.journal != []
    ensures DecideAnswer(bench, s, a).Some? <==>
            && ProperAnswer(bench, a) && |s.journal| < 64
            && (PhaseAfter(bench, s.journal) == Principal || PhaseAfter(bench, s.journal) == Rebuttal)
            && (a.elapsed >= RemainingAfter(bench, s.journal) || FindsWords(bench, s.journal, a))
  {
    hide ValidBench, WithinLimits, ReadOff, Projected, AskNext, FindsWords, RemainingAfter, PhaseAfter, ExpireTime,
         SelectSeat, Remaining, ProperAnswer, ValidAnswer, AnswerUnchecked;
    ProperExactlyWhen(bench, a);
    ProperIsOnAnIssue(bench, a);
    StateIsReadOff(bench, s);
    ExpiryIsSpoken(bench, s, a);
    if ProperAnswer(bench, a) {
      AskedExactlyWhen(bench, s, a, SelectSeat(bench, s).value);
      UncheckedExactlyWhen(bench, s, a);
    }
  }

  lemma ProperIsOnAnIssue(bench: Bench, a: Answer)
    ensures ProperAnswer(bench, a) ==> a.issueId in bench.issues && a.issueId != ""
  {
    NamedIssue(a.issueId);
    hide NamespacedId, Passage;
  }

  // Clocks of at most a day, numbers in their ranges, different seats and questions, and a presiding seat on the bench.
  ghost predicate ProperBench(bench: Bench) {
    && 1 <= bench.principalTime <= 86400 && 0 <= bench.rebuttalTime <= 86400
    && 0.0 <= bench.threshold <= 1.0 && bench.maximumFollowUps < 17 && bench.vetted
    && (exists i :: 0 <= i < |bench.seats| && bench.seats[i].id == bench.presiding)
    && (forall i :: 0 <= i < |bench.seats| ==> 0.0 <= bench.seats[i].followUpDepth <= 1.0)
    && (forall i, j :: 0 <= i < j < |bench.seats| ==> bench.seats[i].id != bench.seats[j].id)
    && (forall i, j :: 0 <= i < j < |bench.questions| ==> bench.questions[i].id != bench.questions[j].id)
  }

  lemma BenchIsProperExactlyWhen(bench: Bench)
    ensures ProperBench(bench) <==> ValidBench(bench)
  {
  }

  // A session opens exactly when the presiding seat finds words for a question of the bank.
  lemma {:induction false} OpenedExactlyWhen(bench: Bench)
    ensures PlanOpening(bench, Initial(bench)).Some? <==>
            && ProperBench(bench)
            && exists i, q :: 0 <= i < |bench.seats| && bench.seats[i].id == bench.presiding
                              && Chosen(bench, bench.seats[i], None, Question, 1, false, q)
                              && Utters(bench, bench.seats[i], Question, q, None, 1, false)
  {
    BenchIsProperExactlyWhen(bench);
    hide ChooseQuestion, Chosen, Selected, ProperBench;
    if ValidBench(bench) {
      InitialIsValid(bench);
      SeatIsAmong(bench.seats, bench.presiding);
      var seat := SeatById(bench.seats, bench.presiding).value;
      var h :| 0 <= h < |bench.seats| && bench.seats[h] == seat;
      QuestionsAreDistinct(bench);
      ChoiceIsPreferred(bench, seat, "", Question, 1, false);
      if i, q :| 0 <= i < |bench.seats| && bench.seats[i].id == bench.presiding
                 && Chosen(bench, bench.seats[i], None, Question, 1, false, q)
                 && Utters(bench, bench.seats[i], Question, q, None, 1, false) {
        assert i == h;
        ChosenIsOne(bench, seat, "", Question, 1, false, q);
      }
    }
  }

  lemma NamedIssue(id: string)
    ensures NamespacedId(id) ==> id != ""
  {
  }

  // ---------------------------------------------------------------------------------------
  // Every seat has its turn
  // ---------------------------------------------------------------------------------------

  // The event is asked, by a seat that may not go on.
  ghost predicate PassesOn(bench: Bench, journal: seq<OralEvent>, k: nat)
    requires 0 < k < |journal|
  {
    && journal[k].bench.kind != TimeExpired
    && exists i :: SeatIs(bench, journal[k - 1], i)
                   && FollowUpRun(journal[..k]) >= AllowedFollowUps(bench, bench.seats[i])
  }

  ghost predicate SeatIs(bench: Bench, e: OralEvent, i: int) {
    0 <= i < |bench.seats| && e.bench.seatId == bench.seats[i].id
  }

  lemma OneIndex(bench: Bench, e: OralEvent, i: int, j: int)
    requires ValidBench(bench) && SeatIs(bench, e, i) && SeatIs(bench, e, j)
    ensures i == j
  {
  }

  // Within the time, whoever speaks is the seat in turn.
  lemma SpeakerInTurn(bench: Bench, journal: seq<OralEvent>, a: Answer, e: OralEvent, i: int)
    requires ValidBench(bench) && journal != [] && AnswersAs(bench, journal, a, e) && e.bench.kind != TimeExpired
    requires SeatIs(bench, Last(journal), i)
    ensures var goesOn := FollowUpRun(journal) < AllowedFollowUps(bench, bench.seats[i]);
            e.bench.seatId == bench.seats[if goesOn then i else (i + 1) % |bench.seats|].id
  {
    hide ValidBench, AllowedFollowUps, FollowUpRun, RemainingAfter, Chosen, Selects, KindFits;
    if a.elapsed < RemainingAfter(bench, journal) {
      var h, goesOn, seat :| SpeaksAfter(bench, journal, h, goesOn, seat)
          && KindFits(bench, seat, goesOn, a, e.bench.kind)
          && Asks(bench, e, seat, Some(a.issueId), OnRecord(e.bench.kind), Some(|journal|),
                  Recalls(seat, e.bench.kind, a));
      OneIndex(bench, Last(journal), i, h);
    }
  }

  // After a seat that may not go on, the next one speaks, and after the last the first.
  lemma {:induction false} NextSeatSpeaks(bench: Bench, journal: seq<OralEvent>, k: nat, i: int)
    requires ValidBench(bench) && Projected(bench, journal).Some? && 0 < k < |journal|
    requires PassesOn(bench, journal, k) && SeatIs(bench, journal[k - 1], i)
    ensures SeatIs(bench, journal[k], (i + 1) % |bench.seats|)
  {
    hide Projected, ValidBench, AllowedFollowUps, FollowUpRun, RemainingAfter, AnswersAs, OpensAs;
    EveryEventIsCalledFor(bench, journal, k);
    var j :| SeatIs(bench, journal[k - 1], j)
        && FollowUpRun(journal[..k]) >= AllowedFollowUps(bench, bench.seats[j]);
    OneIndex(bench, journal[k - 1], i, j);
    assert Last(journal[..k]) == journal[k - 1];
    SpeakerInTurn(bench, journal[..k], journal[k].counsel.value, journal[k], i);
  }

  lemma Wrap(i: int, n: int)
    requires 0 <= i < n
    ensures (i + 1) % n == if i + 1 == n then 0 else i + 1
  {
  }

  lemma {:induction false} TurnsGoRound(bench: Bench, journal: seq<OralEvent>, k: nat, i: int, n: nat)
    requires ValidBench(bench) && Projected(bench, journal).Some? && 0 < k && k + n <= |journal|
    requires SeatIs(bench, journal[k - 1], i) && n <= |bench.seats|
    requires forall m :: k <= m < k + n ==> PassesOn(bench, journal, m)
    ensures SeatIs(bench, journal[k + n - 1], if i + n < |bench.seats| then i + n else i + n - |bench.seats|)
    decreases n
  {
    hide Projected, ValidBench, PassesOn;
    if n > 0 {
      TurnsGoRound(bench, journal, k, i, n - 1);
      var j := if i + n - 1 < |bench.seats| then i + n - 1 else i + n - 1 - |bench.seats|;
      NextSeatSpeaks(bench, journal, k + n - 1, j);
      Wrap(j, |bench.seats|);
    }
  }

  lemma SpeakerOf(bench: Bench, journal: seq<OralEvent>, k: nat) returns (i: nat)
    requires 0 < k < |journal| && PassesOn(bench, journal, k)
    ensures i < |bench.seats| && SeatIs(bench, journal[k - 1], i)
  {
    i :| 0 <= i < |bench.seats| && SeatIs(bench, journal[k - 1], i);
  }

  lemma TurnOf(bench: Bench, journal: seq<OralEvent>, k: nat, i: nat, seat: nat) returns (m: nat)
    requires ValidBench(bench) && Projected(bench, journal).Some? && 0 < k && k + |bench.seats| <= |journal|
    requires forall m :: k <= m < k + |bench.seats| ==> PassesOn(bench, journal, m)
    requires i < |bench.seats| && SeatIs(bench, journal[k - 1], i) && seat < |bench.seats|
    ensures k <= m < k + |bench.seats| && SeatIs(bench, journal[m], seat)
  {
    hide Projected, ValidBench, PassesOn;
    var n := if seat > i then seat - i else seat - i + |bench.seats|;
    TurnsGoRound(bench, journal, k, i, n);
    m := k + n - 1;
  }

  // When every seat in turn may not go on, all of them have spoken after as many questions as there
  // are seats.
  lemma {:induction false} EverySeatSpeaks(bench: Bench, journal: seq<OralEvent>, k: nat, seat: nat)
    requires ValidBench(bench) && Projected(bench, journal).Some? && 0 < k && k + |bench.seats| <= |journal|
    requires forall m :: k <= m < k + |bench.seats| ==> PassesOn(bench, journal, m)
    requires seat < |bench.seats|
    ensures exists m :: k <= m < k + |bench.seats| && journal[m].bench.seatId == bench.seats[seat].id
  {
    hide Projected, ValidBench, PassesOn;
    var i := SpeakerOf(bench, journal, k);
    var m := TurnOf(bench, journal, k, i, seat);
    assert journal[m].bench.seatId == bench.seats[seat].id;
  }
}

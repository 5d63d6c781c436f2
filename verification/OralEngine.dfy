/** The canonical oral-argument engine: the bench asks from a bank of authored questions, two clocks run,
    and every event of a transcript is decided again when the transcript is projected. */
module OralEngine {
  import opened Sorting
  import opened WorkflowReplay

  const MAXIMUM_EVENTS := 64
  const MAXIMUM_TIME := 24 * 60 * 60
  const MAXIMUM_ANSWER_LENGTH := 16 * 1024
  const MAXIMUM_UTTERANCE_LENGTH := 32 * 1024
  const MAXIMUM_CITATIONS := 32

  // ---------------------------------------------------------------------------------------
  // What counsel and the bench say
  // ---------------------------------------------------------------------------------------

  datatype Phase = NotStarted | Principal | Rebuttal | Complete

  datatype CounselKind = PlainAnswer | Concession | RecordClaim

  datatype Answer = Answer(
    kind: CounselKind, text: string, issueId: string, cited: seq<string>, confidence: real, elapsed: int)

  datatype ActKind =
    | Question
    | Interruption
    | FollowUp
    | Hypothetical
    | RecordPinDemand
    | ClarificationRequest
    | TimeExpired

  datatype Grounding = Grounding(id: string, isRecordPage: bool, reference: string)

  datatype AuthoredQuestion = AuthoredQuestion(
    id: string, issueId: string, topic: string, prompt: string, grounding: seq<Grounding>)

  datatype Selection = Selection(
    questionId: string, topic: string, mode: string, prompt: string, grounding: seq<Grounding>)

  datatype GroundedQuestion = GroundedQuestion(
    issueId: string, selection: Selection, parent: Option<nat>, recallsConcession: bool)

  datatype BenchAct = BenchAct(
    kind: ActKind, seatId: string, question: Option<GroundedQuestion>, utterance: string)

  datatype OralEvent = OralEvent(sequence: nat, counsel: Option<Answer>, bench: BenchAct)

  // ---------------------------------------------------------------------------------------
  // The definition and the state
  // ---------------------------------------------------------------------------------------

  datatype Address = Counsel | Advocate

  // What of a judge's profile decides which act follows; `weight` is that of a topic, negative if
  // the seat does not list it.
  datatype Seat = Seat(
    id: string, address: Address, followUpDepth: real, recordPinDemand: real, concessionRecall: real,
    hypotheticalFrequency: real, interruptionFrequency: real, timeStrictness: real, weight: string -> real)

  // `choice` is the number that the style of a seat gives for the choice among questions, `wording`
  // the utterance its voice makes of a question, and `vetted` the answer of the checks of names,
  // phrases, topics and digests.
  datatype Bench = Bench(
    principalTime: int, rebuttalTime: int, threshold: real, maximumFollowUps: nat,
    seats: seq<Seat>, presiding: string, mode: string, issues: set<string>, questions: seq<AuthoredQuestion>,
    choice: (Seat, ActKind, nat) -> nat, wording: (Seat, ActKind, GroundedQuestion, nat) -> Option<string>,
    vetted: bool)

  datatype TranscriptEntry =
    | FromCounsel(sequence: nat, utterance: string)
    | FromBench(sequence: nat, seatId: string, utterance: string, kind: ActKind)

  datatype Conceded = Conceded(sequence: nat, issueId: string, text: string)

  datatype OralState = OralState(
    phase: Phase, principalRemaining: int, rebuttalRemaining: int, nextSequence: nat,
    lastSeat: Option<string>, followUps: nat, concessions: seq<Conceded>, transcript: seq<TranscriptEntry>,
    journal: seq<OralEvent>)

  predicate UnitInterval(x: real) {
    0.0 <= x <= 1.0
  }

  predicate ValidBench(bench: Bench) {
    && 0 < bench.principalTime <= MAXIMUM_TIME && 0 <= bench.rebuttalTime <= MAXIMUM_TIME
    && UnitInterval(bench.threshold) && bench.maximumFollowUps <= 16
    && SeatById(bench.seats, bench.presiding).Some?
    && (forall i :: 0 <= i < |bench.seats| ==> UnitInterval(bench.seats[i].followUpDepth))
    && (forall i, j :: 0 <= i < j < |bench.seats| ==> bench.seats[i].id != bench.seats[j].id)
    && (forall i, j :: 0 <= i < j < |bench.questions| ==> bench.questions[i].id != bench.questions[j].id)
    && bench.vetted
  }

  function Initial(bench: Bench): OralState {
    OralState(NotStarted, bench.principalTime, bench.rebuttalTime, 1, None, 0, [], [], [])
  }

  // ---------------------------------------------------------------------------------------
  // Seats and questions
  // ---------------------------------------------------------------------------------------

  function SeatById(seats: seq<Seat>, id: string): (seat: Option<Seat>)
    ensures seat.Some? ==> seat.value.id == id
    ensures seat.Some? <==> exists i :: 0 <= i < |seats| && seats[i].id == id
  {
    if seats == [] then None
    else if seats[0].id == id then Some(seats[0])
    else
      var found := SeatById(seats[1..], id);
      assert forall i :: 1 <= i < |seats| ==> seats[i] == seats[1..][i - 1];
      found
  }

  function IndexOfSeat(seats: seq<Seat>, id: string): (index: Option<nat>)
    ensures index.Some? ==> index.value < |seats| && seats[index.value].id == id
    ensures index.None? ==> forall i :: 0 <= i < |seats| ==> seats[i].id != id
  {
    if seats == [] then None
    else if seats[0].id == id then Some(0)
    else
      match IndexOfSeat(seats[1..], id)
      case None =>
        assert forall i :: 1 <= i < |seats| ==> seats[i] == seats[1..][i - 1];
        None
      case Some(i) => Some(i + 1)
  }

  // The follow-up depth of the profile, scaled to the limit and rounded half away from zero.
  function AllowedFollowUps(bench: Bench, seat: Seat): int {
    (seat.followUpDepth * (bench.maximumFollowUps as real) + 0.5).Floor
  }

  lemma ScalingDown(x: real, m: real)
    requires UnitInterval(x) && 0.0 <= m
    ensures 0.0 <= x * m <= m
  {
    assert (1.0 - x) * m >= 0.0;
    assert (1.0 - x) * m == m - x * m;
  }

  // The nearest whole number to the scaled depth, the larger one halfway, and within the limit.
  lemma {:induction false} AllowedIsWithinTheLimit(bench: Bench, seat: Seat)
    requires UnitInterval(seat.followUpDepth)
    ensures 0 <= AllowedFollowUps(bench, seat) <= bench.maximumFollowUps
    ensures var scaled := seat.followUpDepth * bench.maximumFollowUps as real;
            AllowedFollowUps(bench, seat) as real - 0.5 <= scaled < AllowedFollowUps(bench, seat) as real + 0.5
  {
    var m := bench.maximumFollowUps as real;
    var scaled := seat.followUpDepth * m;
    ScalingDown(seat.followUpDepth, m);
    assert (scaled + 0.5).Floor as real <= m + 0.5;
  }

  datatype Turn = Turn(seat: Seat, continues: bool)

  // The seat that speaks next: the last one while it may follow up, then the one after it.
  function SelectSeat(bench: Bench, s: OralState): (turn: Option<Turn>)
    ensures turn.Some? ==> SeatById(bench.seats, turn.value.seat.id).Some?
    ensures turn.Some? && turn.value.continues ==>
              && s.lastSeat == Some(turn.value.seat.id) && turn.value.seat in bench.seats
              && s.followUps < AllowedFollowUps(bench, turn.value.seat)
  {
    match s.lastSeat
    case None =>
      (match SeatById(bench.seats, bench.presiding)
       case None => None
       case Some(seat) => Some(Turn(seat, false)))
    case Some(last) =>
      match IndexOfSeat(bench.seats, last)
      case None => None
      case Some(i) =>
        if s.followUps < AllowedFollowUps(bench, bench.seats[i]) then Some(Turn(bench.seats[i], true))
        else Some(Turn(bench.seats[if i + 1 == |bench.seats| then 0 else i + 1], false))
  }

  predicate HasRecordPage(grounding: seq<Grounding>) {
    exists g :: g in grounding && g.isRecordPage
  }

  function Candidates(questions: seq<AuthoredQuestion>, issueId: string, onRecord: bool): (r: seq<AuthoredQuestion>)
    ensures forall q :: q in r ==>
              && q in questions && (issueId != "" ==> q.issueId == issueId)
              && (onRecord ==> HasRecordPage(q.grounding))
  {
    if questions == [] then []
    else
      var q, rest := questions[0], Candidates(questions[1..], issueId, onRecord);
      if (issueId != "" && q.issueId != issueId) || (onRecord && !HasRecordPage(q.grounding)) then rest
      else [q] + rest
  }

  function HeaviestWeight(seat: Seat, questions: seq<AuthoredQuestion>): real {
    if questions == [] then -1.0
    else
      var rest := HeaviestWeight(seat, questions[1..]);
      if seat.weight(questions[0].topic) > rest then seat.weight(questions[0].topic) else rest
  }

  function WithWeight(seat: Seat, questions: seq<AuthoredQuestion>, weight: real): (r: seq<AuthoredQuestion>)
    ensures forall q :: q in r ==> q in questions
  {
    if questions == [] then []
    else
      var rest := WithWeight(seat, questions[1..], weight);
      if seat.weight(questions[0].topic) == weight then [questions[0]] + rest else rest
  }

  predicate QuestionLeq(a: AuthoredQuestion, b: AuthoredQuestion) {
    StringLeq(a.id, b.id)
  }

  // Of the questions on the issue, those on the topics the seat cares most about, and of these the
  // one its style gives.
  function ChooseQuestion(bench: Bench, seat: Seat, issueId: string, kind: ActKind, sequence: nat, onRecord: bool)
    : (q: Option<AuthoredQuestion>)
    ensures q.Some? ==>
              && q.value in bench.questions && (issueId != "" ==> q.value.issueId == issueId)
              && (onRecord ==> HasRecordPage(q.value.grounding))
  {
    var sorted := Sort(Candidates(bench.questions, issueId, onRecord), QuestionLeq);
    var heaviest := HeaviestWeight(seat, sorted);
    var best := if heaviest >= 0.0 then WithWeight(seat, sorted, heaviest) else sorted;
    if best == [] then None else Some(best[bench.choice(seat, kind, sequence) % |best|])
  }

  function QuestionById(questions: seq<AuthoredQuestion>, id: string): (q: Option<AuthoredQuestion>)
    ensures q.Some? ==> q.value in questions && q.value.id == id
    ensures q.None? ==> forall r :: r in questions ==> r.id != id
  {
    if questions == [] then None
    else if questions[0].id == id then Some(questions[0])
    else QuestionById(questions[1..], id)
  }

  predicate GroundingLeq(a: Grounding, b: Grounding) {
    StringLeq(a.id, b.id)
  }

  function Selected(q: AuthoredQuestion, mode: string): (s: Selection)
    ensures s.questionId == q.id && (HasRecordPage(s.grounding) <==> HasRecordPage(q.grounding))
  {
    Selection(q.id, q.topic, mode, q.prompt, Sort(q.grounding, GroundingLeq))
  }

  // ---------------------------------------------------------------------------------------
  // Deciding
  // ---------------------------------------------------------------------------------------

  predicate BoundedText(text: string, maximum: nat) {
    text != "" && |text| <= maximum
  }

  predicate IsSeparator(c: char) {
    c == '.' || c == '-'
  }

  // Lower-case letters and digits, with single separators only between them, and at least one.
  predicate NamespacedId(id: string) {
    && 3 <= |id| <= 160 && !IsSeparator(id[0]) && !IsSeparator(id[|id| - 1])
    && (forall i :: 0 <= i < |id| ==> 'a' <= id[i] <= 'z' || '0' <= id[i] <= '9' || IsSeparator(id[i]))
    && (forall i :: 0 < i < |id| ==> !IsSeparator(id[i - 1]) || !IsSeparator(id[i]))
    && exists i :: 0 <= i < |id| && IsSeparator(id[i])
  }

  // The loop over the characters finds the same.
  method CheckNamespacedId(value: string) returns (good: bool)
    ensures good == NamespacedId(value)
  {
    if |value| < 3 || |value| > 160 || value[0] == '.' || value[0] == '-' || value[|value| - 1] == '.'
       || value[|value| - 1] == '-' {
      return false;
    }
    var hasSeparator, previousSeparator := false, false;
    for i := 0 to |value|
      invariant forall k :: 0 <= k < i ==> 'a' <= value[k] <= 'z' || '0' <= value[k] <= '9' || IsSeparator(value[k])
      invariant forall k :: 0 < k < i ==> !IsSeparator(value[k - 1]) || !IsSeparator(value[k])
      invariant hasSeparator <==> exists k :: 0 <= k < i && IsSeparator(value[k])
      invariant previousSeparator <==> i > 0 && IsSeparator(value[i - 1])
    {
      var alphanumeric := ('a' <= value[i] <= 'z') || ('0' <= value[i] <= '9');
      var separator := value[i] == '.' || value[i] == '-';
      if (!alphanumeric && !separator) || (separator && previousSeparator) {
        return false;
      }
      hasSeparator, previousSeparator := hasSeparator || separator, separator;
    }
    good := hasSeparator;
  }

  predicate Cites(bench: Bench, issueId: string, groundingId: string) {
    exists q, g :: q in bench.questions && q.issueId == issueId && g in q.grounding && g.id == groundingId
  }

  predicate CitesRecord(bench: Bench, issueId: string, groundingId: string) {
    exists q, g :: q in bench.questions && q.issueId == issueId && g in q.grounding && g.id == groundingId
                   && g.isRecordPage
  }

  predicate ValidAnswer(bench: Bench, a: Answer) {
    && BoundedText(a.text, MAXIMUM_ANSWER_LENGTH) && NamespacedId(a.issueId) && UnitInterval(a.confidence)
    && 0 < a.elapsed <= MAXIMUM_TIME && |a.cited| <= MAXIMUM_CITATIONS
    && (forall i, j :: 0 <= i < j < |a.cited| ==> a.cited[i] != a.cited[j])
    && (forall i :: 0 <= i < |a.cited| ==> NamespacedId(a.cited[i]) && Cites(bench, a.issueId, a.cited[i]))
    && a.issueId in bench.issues
  }

  // An utterance that is too long is refused.
  function MakeAct(bench: Bench, seat: Seat, q: AuthoredQuestion, kind: ActKind, sequence: nat, parent: Option<nat>,
                   recalls: bool): Option<BenchAct>
  {
    var question := GroundedQuestion(q.issueId, Selected(q, bench.mode), parent, recalls);
    match bench.wording(seat, kind, question, sequence)
    case None => None
    case Some(utterance) =>
      if !BoundedText(utterance, MAXIMUM_UTTERANCE_LENGTH) then None
      else Some(BenchAct(kind, seat.id, Some(question), utterance))
  }

  function RenderExpiration(seat: Seat, phase: Phase, rebuttalRemains: bool): (text: string)
    ensures BoundedText(text, MAXIMUM_UTTERANCE_LENGTH)
  {
    (if seat.address == Counsel then "Counsel" else "Advocate") + ", your "
    + (if phase == Principal then "principal" else "rebuttal")
    + (if seat.timeStrictness >= 0.5 then " time has expired" else " allotted time has now concluded")
    + (if rebuttalRemains then "; rebuttal time remains." else ".")
  }

  function OpeningUnchecked(bench: Bench, s: OralState): Option<OralEvent> {
    if |s.journal| >= MAXIMUM_EVENTS || s.phase != NotStarted then None
    else
      match SeatById(bench.seats, bench.presiding)
      case None => None
      case Some(seat) =>
        match ChooseQuestion(bench, seat, "", Question, s.nextSequence, false)
        case None => None
        case Some(q) =>
          match MakeAct(bench, seat, q, Question, s.nextSequence, None, false)
          case None => None
          case Some(act) => Some(OralEvent(s.nextSequence, None, act))
  }

  function Remaining(s: OralState): int {
    if s.phase == Principal then s.principalRemaining else s.rebuttalRemaining
  }

  predicate DemandsRecord(bench: Bench, turn: Turn, a: Answer) {
    && a.kind == RecordClaim
    && (exists q :: q in bench.questions && q.issueId == a.issueId && HasRecordPage(q.grounding))
    && turn.seat.recordPinDemand >= 0.5
    && forall i :: 0 <= i < |a.cited| ==> !CitesRecord(bench, a.issueId, a.cited[i])
  }

  predicate RecallsConcession(bench: Bench, turn: Turn, a: Answer) {
    a.kind == Concession && turn.continues && turn.seat.concessionRecall >= 0.5
  }

  // The first that applies, in this order.
  function NextKind(bench: Bench, turn: Turn, a: Answer): ActKind {
    if a.confidence < bench.threshold then ClarificationRequest
    else if DemandsRecord(bench, turn, a) then RecordPinDemand
    else if RecallsConcession(bench, turn, a) then FollowUp
    else if turn.seat.hypotheticalFrequency >= 0.6 then Hypothetical
    else if turn.seat.interruptionFrequency >= 0.6 then Interruption
    else if turn.continues then FollowUp
    else Question
  }

  function AnswerUnchecked(bench: Bench, s: OralState, a: Answer): Option<OralEvent> {
    if |s.journal| >= MAXIMUM_EVENTS || (s.phase != Principal && s.phase != Rebuttal) then None
    else
      match SelectSeat(bench, s)
      case None => None
      case Some(turn) =>
        if a.issueId !in bench.issues then None
        else if a.elapsed >= Remaining(s) then ExpireTime(bench, s, a)
        else AskNext(bench, s, a, turn)
  }

  // The presiding seat ends the phase.
  function ExpireTime(bench: Bench, s: OralState, a: Answer): Option<OralEvent> {
    match SeatById(bench.seats, bench.presiding)
    case None => None
    case Some(seat) =>
      var text := RenderExpiration(seat, s.phase, s.phase == Principal && s.rebuttalRemaining > 0);
      Some(OralEvent(s.nextSequence, Some(a), BenchAct(TimeExpired, seat.id, None, text)))
  }

  function AskNext(bench: Bench, s: OralState, a: Answer, turn: Turn): Option<OralEvent> {
    var kind := NextKind(bench, turn, a);
    var recalls := a.confidence >= bench.threshold && !DemandsRecord(bench, turn, a)
                   && RecallsConcession(bench, turn, a);
    match ChooseQuestion(bench, turn.seat, a.issueId, kind, s.nextSequence, kind == RecordPinDemand)
    case None => None
    case Some(q) =>
      var parent := if s.nextSequence > 1 then Some(s.nextSequence - 1) else None;
      match MakeAct(bench, turn.seat, q, kind, s.nextSequence, parent, recalls)
      case None => None
      case Some(act) => Some(OralEvent(s.nextSequence, Some(a), act))
  }

  // ---------------------------------------------------------------------------------------
  // Checking and applying an event
  // ---------------------------------------------------------------------------------------

  predicate WellFormedQuestion(bench: Bench, e: OralEvent, question: GroundedQuestion) {
    var authored := QuestionById(bench.questions, question.selection.questionId);
    && authored.Some? && authored.value.issueId == question.issueId
    && question.selection == Selected(authored.value, bench.mode)
    && (question.parent.Some? ==> 0 < question.parent.value < e.sequence)
    && (question.recallsConcession ==> e.bench.kind == FollowUp)
    && (e.bench.kind == RecordPinDemand ==> HasRecordPage(question.selection.grounding))
  }

  predicate WellFormed(bench: Bench, e: OralEvent) {
    && 0 < e.sequence <= MAXIMUM_EVENTS
    && SeatById(bench.seats, e.bench.seatId).Some?
    && BoundedText(e.bench.utterance, MAXIMUM_UTTERANCE_LENGTH)
    && (e.counsel.Some? ==> ValidAnswer(bench, e.counsel.value))
    && (if e.bench.kind == TimeExpired then e.bench.question.None?
        else e.bench.question.Some? && WellFormedQuestion(bench, e, e.bench.question.value))
  }

  // The opening is the first event and a plain question; later events answer counsel while a clock runs.
  predicate InTurn(s: OralState, e: OralEvent) {
    && e.sequence == |s.journal| + 1
    && (if s.journal == [] then
          e.counsel.None? && e.bench.kind == Question && e.bench.question.Some? && e.bench.question.value.parent.None?
        else e.counsel.Some? && (s.phase == Principal || s.phase == Rebuttal))
  }

  // Time expires exactly when the answer took all that remained.
  predicate KeepsClock(s: OralState, e: OralEvent) {
    e.counsel.Some? ==> (e.bench.kind == TimeExpired <==> e.counsel.value.elapsed >= Remaining(s))
  }

  // Only the seat that spoke last follows up, and only as often as it may.
  predicate KeepsChain(bench: Bench, s: OralState, e: OralEvent) {
    e.bench.kind == FollowUp ==>
      && s.lastSeat == Some(e.bench.seatId) && SeatById(bench.seats, e.bench.seatId).Some?
      && s.followUps < AllowedFollowUps(bench, SeatById(bench.seats, e.bench.seatId).value)
  }

  function Max(a: int, b: int): int {
    if a >= b then a else b
  }

  // The state after an event that was accepted.
  function Advance(bench: Bench, s: OralState, e: OralEvent): OralState {
    var answered := if e.counsel.None? then s.(phase := Principal) else Answered(bench, s, e, e.counsel.value);
    answered.(
      transcript := answered.transcript + [FromBench(e.sequence, e.bench.seatId, e.bench.utterance, e.bench.kind)],
      followUps := if e.bench.kind == FollowUp && s.lastSeat == Some(e.bench.seatId) then s.followUps + 1 else 0,
      lastSeat := Some(e.bench.seatId),
      nextSequence := s.nextSequence + 1,
      journal := s.journal + [e])
  }

  function Answered(bench: Bench, s: OralState, e: OralEvent, a: Answer): OralState {
    var expired := e.bench.kind == TimeExpired;
    var principal := if s.phase == Principal then Max(0, s.principalRemaining - a.elapsed) else s.principalRemaining;
    var rebuttal := if s.phase == Principal then s.rebuttalRemaining else Max(0, s.rebuttalRemaining - a.elapsed);
    s.(
      principalRemaining := principal,
      rebuttalRemaining := rebuttal,
      phase := if !expired then s.phase
               else if s.phase == Principal && rebuttal > 0 then Rebuttal
               else Complete,
      concessions := if !expired && a.kind == Concession && a.confidence >= bench.threshold
                     then s.concessions + [Conceded(e.sequence, a.issueId, a.text)] else s.concessions,
      transcript := s.transcript + [FromCounsel(e.sequence, a.text)])
  }

  // What the event must be, in this state of the projection.
  function DecisionFor(bench: Bench, s: OralState, counsel: Option<Answer>): Option<OralEvent> {
    if s.journal == [] then OpeningUnchecked(bench, s)
    else match counsel case None => None case Some(a) => AnswerUnchecked(bench, s, a)
  }

  // One step of the projection, with all its checks.
  function ProjectStep(bench: Bench, s: OralState, e: OralEvent): Option<OralState> {
    if !WellFormed(bench, e) || !InTurn(s, e) || !KeepsClock(s, e) || !KeepsChain(bench, s, e) then None
    else if DecisionFor(bench, s, e.counsel) != Some(e) then None
    else Some(Advance(bench, s, e))
  }

  // The state a whole journal projects to.
  function Projected(bench: Bench, journal: seq<OralEvent>): Option<OralState> {
    if journal == [] then Some(Initial(bench))
    else
      match Projected(bench, journal[..|journal| - 1])
      case None => None
      case Some(before) => ProjectStep(bench, before, journal[|journal| - 1])
  }

  predicate WithinLimits(bench: Bench, s: OralState) {
    && |s.journal| <= MAXIMUM_EVENTS && |s.transcript| <= 2 * MAXIMUM_EVENTS && |s.concessions| <= MAXIMUM_EVENTS
    && s.nextSequence == |s.journal| + 1
    && 0 <= s.principalRemaining <= bench.principalTime && 0 <= s.rebuttalRemaining <= bench.rebuttalTime
    && s.followUps <= bench.maximumFollowUps
  }

  // A state within the limits that is the projection of its own journal.
  predicate ValidState(bench: Bench, s: OralState) {
    WithinLimits(bench, s) && Projected(bench, s.journal) == Some(s)
  }

  function PlanOpening(bench: Bench, s: OralState): Option<OralEvent> {
    if !ValidBench(bench) || !ValidState(bench, s) then None else OpeningUnchecked(bench, s)
  }

  function DecideAnswer(bench: Bench, s: OralState, a: Answer): Option<OralEvent> {
    if !ValidBench(bench) || !ValidState(bench, s) || !ValidAnswer(bench, a) then None
    else AnswerUnchecked(bench, s, a)
  }

  function ApplyOral(bench: Bench, s: OralState, e: OralEvent): Option<OralState> {
    if !ValidBench(bench) || !ValidState(bench, s) then None
    else if |s.journal| >= MAXIMUM_EVENTS || !WellFormed(bench, e) || e.sequence != s.nextSequence then None
    else
      var expected := if s.phase == NotStarted then OpeningUnchecked(bench, s)
                      else match e.counsel case None => None case Some(a) => AnswerUnchecked(bench, s, a);
      if expected != Some(e) then None else Some(Advance(bench, s, e))
  }

  // ---------------------------------------------------------------------------------------
  // The clock and the phase, read off the transcript
  // ---------------------------------------------------------------------------------------

  function Expiries(journal: seq<OralEvent>): nat {
    if journal == [] then 0
    else Expiries(journal[..|journal| - 1]) + if journal[|journal| - 1].bench.kind == TimeExpired then 1 else 0
  }

  function Elapsed(e: OralEvent): int {
    match e.counsel case None => 0 case Some(a) => a.elapsed
  }

  // What counsel used up to the first expiry, and after it.
  function PrincipalSpent(journal: seq<OralEvent>): int {
    if journal == [] then 0
    else
      var front := journal[..|journal| - 1];
      PrincipalSpent(front) + if Expiries(front) == 0 then Elapsed(journal[|journal| - 1]) else 0
  }

  function RebuttalSpent(journal: seq<OralEvent>): int {
    if journal == [] then 0
    else
      var front := journal[..|journal| - 1];
      RebuttalSpent(front) + if Expiries(front) == 0 then 0 else Elapsed(journal[|journal| - 1])
  }

  function PhaseAfter(bench: Bench, journal: seq<OralEvent>): Phase {
    if journal == [] then NotStarted
    else if Expiries(journal) == 0 then Principal
    else if Expiries(journal) == 1 && bench.rebuttalTime > 0 then Rebuttal
    else Complete
  }

  // What the clocks and the phase are after a journal, without the engine.
  ghost predicate ClockOf(bench: Bench, s: OralState, journal: seq<OralEvent>) {
    && s.phase == PhaseAfter(bench, journal)
    && s.principalRemaining == Max(0, bench.principalTime - PrincipalSpent(journal))
    && s.rebuttalRemaining == Max(0, bench.rebuttalTime - RebuttalSpent(journal))
    && 0 <= PrincipalSpent(journal) && 0 <= RebuttalSpent(journal)
    && (s.phase == Principal ==> s.principalRemaining > 0)
    && (s.phase == Rebuttal ==> s.rebuttalRemaining > 0)
    && (if Expiries(journal) > 0 then s.principalRemaining == 0 else RebuttalSpent(journal) == 0)
    && (s.phase == Complete ==> s.rebuttalRemaining == 0)
    && Expiries(journal) <= (if bench.rebuttalTime > 0 then 2 else 1)
  }

  ghost predicate ShapeOf(bench: Bench, s: OralState, journal: seq<OralEvent>) {
    && s.journal == journal && s.nextSequence == |journal| + 1
    && |s.transcript| == (if journal == [] then 0 else 2 * |journal| - 1)
    && |s.concessions| <= |journal| && s.followUps <= bench.maximumFollowUps
    && (s.lastSeat.Some? <==> journal != [])
  }

  lemma StepFacts(bench: Bench, s: OralState, e: OralEvent)
    requires ProjectStep(bench, s, e).Some?
    ensures ProjectStep(bench, s, e) == Some(Advance(bench, s, e)) && InTurn(s, e) && KeepsClock(s, e)
    ensures KeepsChain(bench, s, e) && WellFormed(bench, e) && DecisionFor(bench, s, e.counsel) == Some(e)
    ensures e.counsel.Some? ==> e.counsel.value.elapsed > 0
  {
    hide DecisionFor, WellFormedQuestion, NamespacedId, Cites, Advance;
  }

  lemma ChainIsWithinTheLimit(bench: Bench, s: OralState, e: OralEvent)
    requires ValidBench(bench) && KeepsChain(bench, s, e) && s.followUps <= bench.maximumFollowUps
    ensures Advance(bench, s, e).followUps <= bench.maximumFollowUps
  {
    if e.bench.kind == FollowUp {
      var seat := SeatById(bench.seats, e.bench.seatId).value;
      SeatIsValid(bench, e.bench.seatId);
      AllowedIsWithinTheLimit(bench, seat);
    }
  }

  lemma SeatIsValid(bench: Bench, id: string)
    requires ValidBench(bench) && SeatById(bench.seats, id).Some?
    ensures UnitInterval(SeatById(bench.seats, id).value.followUpDepth)
  {
    SeatIsAmong(bench.seats, id);
    var seat := SeatById(bench.seats, id).value;
    var i :| 0 <= i < |bench.seats| && bench.seats[i] == seat;
  }

  lemma {:induction false} SeatIsAmong(seats: seq<Seat>, id: string)
    requires SeatById(seats, id).Some?
    ensures SeatById(seats, id).value in seats
    decreases |seats|
  {
    if seats[0].id != id {
      SeatIsAmong(seats[1..], id);
    }
  }

  lemma StepKeepsClock(bench: Bench, s: OralState, journal: seq<OralEvent>, e: OralEvent)
    requires ValidBench(bench) && ShapeOf(bench, s, journal) && ClockOf(bench, s, journal)
    requires InTurn(s, e) && KeepsClock(s, e) && (e.counsel.Some? ==> e.counsel.value.elapsed > 0)
    ensures ClockOf(bench, Advance(bench, s, e), journal + [e])
  {
    hide SeatById;
    assert (journal + [e])[..|journal|] == journal;
  }

  lemma StepKeepsShape(bench: Bench, s: OralState, journal: seq<OralEvent>, e: OralEvent)
    requires ValidBench(bench) && ShapeOf(bench, s, journal) && InTurn(s, e) && KeepsChain(bench, s, e)
    ensures ShapeOf(bench, Advance(bench, s, e), journal + [e])
  {
    ChainIsWithinTheLimit(bench, s, e);
    hide ValidBench, KeepsChain;
  }

  lemma InitialIsSound(bench: Bench)
    requires ValidBench(bench)
    ensures ShapeOf(bench, Initial(bench), []) && ClockOf(bench, Initial(bench), [])
  {
    hide SeatById;
  }

  // Every projected state: its transcript, and its phase and clocks by the answers' times alone.
  lemma {:induction false} ProjectedIsSound(bench: Bench, journal: seq<OralEvent>)
    requires ValidBench(bench) && Projected(bench, journal).Some?
    ensures ShapeOf(bench, Projected(bench, journal).value, journal)
    ensures ClockOf(bench, Projected(bench, journal).value, journal)
    decreases |journal|
  {
    hide ShapeOf, ClockOf, ProjectStep, ValidBench, InTurn, KeepsClock, KeepsChain, WellFormed, Advance, DecisionFor,
         Initial;
    if journal == [] {
      InitialIsSound(bench);
    } else {
      var front, e := journal[..|journal| - 1], journal[|journal| - 1];
      ProjectedIsSound(bench, front);
      var s := Projected(bench, front).value;
      StepFacts(bench, s, e);
      StepKeepsClock(bench, s, front, e);
      StepKeepsShape(bench, s, front, e);
      assert front + [e] == journal;
    }
  }

  // The limits on a state are no restriction: every projected state of at most 64 events keeps them.
  lemma {:induction false} ValidStatesAreTheProjected(bench: Bench, s: OralState)
    requires ValidBench(bench)
    ensures ValidState(bench, s) <==> |s.journal| <= MAXIMUM_EVENTS && Projected(bench, s.journal) == Some(s)
  {
    if Projected(bench, s.journal) == Some(s) {
      ProjectedIsSound(bench, s.journal);
      hide ValidBench, Projected;
    }
  }

  // ---------------------------------------------------------------------------------------
  // Deciding, applying and projecting agree
  // ---------------------------------------------------------------------------------------

  lemma {:induction false} QuestionIsFound(questions: seq<AuthoredQuestion>, q: AuthoredQuestion)
    requires q in questions
    requires forall i, j :: 0 <= i < j < |questions| ==> questions[i].id != questions[j].id
    ensures QuestionById(questions, q.id) == Some(q)
    decreases |questions|
  {
    if questions[0].id != q.id {
      assert q in questions[1..];
      QuestionIsFound(questions[1..], q);
    }
  }

  // Whatever act is made of an authored question passes the checks on questions.
  lemma MadeActIsWellFormed(bench: Bench, seat: Seat, q: AuthoredQuestion, kind: ActKind, parent: Option<nat>,
                            recalls: bool, e: OralEvent)
    requires ValidBench(bench) && q in bench.questions && kind != TimeExpired
    requires MakeAct(bench, seat, q, kind, e.sequence, parent, recalls) == Some(e.bench)
    requires parent.Some? ==> 0 < parent.value < e.sequence
    requires recalls ==> kind == FollowUp
    requires kind == RecordPinDemand ==> HasRecordPage(q.grounding)
    ensures e.bench.kind == kind && e.bench.seatId == seat.id
    ensures BoundedText(e.bench.utterance, MAXIMUM_UTTERANCE_LENGTH)
    ensures e.bench.question.Some? && WellFormedQuestion(bench, e, e.bench.question.value)
    ensures e.bench.question.value.parent == parent
  {
    QuestionIsFound(bench.questions, q);
    hide HasRecordPage, BoundedText;
  }

  lemma OpeningIsAdmitted(bench: Bench, s: OralState, e: OralEvent)
    requires ValidBench(bench) && ShapeOf(bench, s, s.journal) && ClockOf(bench, s, s.journal)
    requires OpeningUnchecked(bench, s) == Some(e)
    ensures WellFormed(bench, e) && InTurn(s, e) && KeepsClock(s, e) && KeepsChain(bench, s, e)
    ensures s.journal == [] && e.counsel.None?
  {
    hide ChooseQuestion, MakeAct, WellFormedQuestion, ValidBench;
    var seat := SeatById(bench.seats, bench.presiding).value;
    var q := ChooseQuestion(bench, seat, "", Question, s.nextSequence, false).value;
    MadeActIsWellFormed(bench, seat, q, Question, None, false, e);
  }

  lemma ExpiryIsAdmitted(bench: Bench, s: OralState, a: Answer, e: OralEvent)
    requires ValidBench(bench) && ShapeOf(bench, s, s.journal) && ClockOf(bench, s, s.journal)
    requires ValidAnswer(bench, a) && |s.journal| < MAXIMUM_EVENTS && (s.phase == Principal || s.phase == Rebuttal)
    requires a.elapsed >= Remaining(s) && ExpireTime(bench, s, a) == Some(e)
    ensures WellFormed(bench, e) && InTurn(s, e) && KeepsClock(s, e) && KeepsChain(bench, s, e)
    ensures e.counsel == Some(a)
  {
    hide ValidBench, ValidAnswer, RenderExpiration, BoundedText;
  }

  lemma AskedIsAdmitted(bench: Bench, s: OralState, a: Answer, turn: Turn, e: OralEvent)
    requires ValidBench(bench) && ShapeOf(bench, s, s.journal) && ClockOf(bench, s, s.journal)
    requires ValidAnswer(bench, a) && |s.journal| < MAXIMUM_EVENTS && (s.phase == Principal || s.phase == Rebuttal)
    requires SelectSeat(bench, s) == Some(turn)
    requires a.elapsed < Remaining(s) && AskNext(bench, s, a, turn) == Some(e)
    ensures WellFormed(bench, e) && InTurn(s, e) && KeepsClock(s, e) && KeepsChain(bench, s, e)
    ensures e.counsel == Some(a)
  {
    hide ChooseQuestion, MakeAct, WellFormedQuestion, ValidAnswer, DemandsRecord, RecallsConcession;
    var kind := NextKind(bench, turn, a);
    var recalls := a.confidence >= bench.threshold && !DemandsRecord(bench, turn, a)
                   && RecallsConcession(bench, turn, a);
    var q := ChooseQuestion(bench, turn.seat, a.issueId, kind, s.nextSequence, kind == RecordPinDemand).value;
    var parent := if s.nextSequence > 1 then Some(s.nextSequence - 1) else None;
    MadeActIsWellFormed(bench, turn.seat, q, kind, parent, recalls, e);
    FollowUpsContinue(bench, turn, a);
    if turn.continues {
      SeatIsOne(bench, turn.seat);
    }
    hide NextKind, ValidBench;
  }

  lemma FollowUpsContinue(bench: Bench, turn: Turn, a: Answer)
    ensures NextKind(bench, turn, a) == FollowUp ==> turn.continues
    ensures NextKind(bench, turn, a) != TimeExpired
  {
    hide DemandsRecord;
  }

  lemma SeatIsOne(bench: Bench, seat: Seat)
    requires ValidBench(bench) && seat in bench.seats
    ensures SeatById(bench.seats, seat.id) == Some(seat)
  {
    SeatIsAmong(bench.seats, seat.id);
    var i :| 0 <= i < |bench.seats| && bench.seats[i] == seat;
    var j :| 0 <= j < |bench.seats| && bench.seats[j] == SeatById(bench.seats, seat.id).value;
  }

  // Whatever is decided in a projected state passes every check of the projection.
  lemma {:induction false} DecisionIsAdmitted(bench: Bench, s: OralState, counsel: Option<Answer>, e: OralEvent)
    requires ValidBench(bench) && Projected(bench, s.journal) == Some(s)
    requires counsel.Some? ==> ValidAnswer(bench, counsel.value)
    requires DecisionFor(bench, s, counsel) == Some(e)
    ensures ProjectStep(bench, s, e) == Some(Advance(bench, s, e)) && |s.journal| < MAXIMUM_EVENTS
    ensures e.counsel == if s.journal == [] then None else counsel
  {
    hide ValidBench, ValidAnswer, ShapeOf, ClockOf, WellFormed, InTurn, KeepsClock, KeepsChain, Advance, ExpireTime,
         AskNext, SelectSeat, OpeningUnchecked, Projected;
    ProjectedIsSound(bench, s.journal);
    if s.journal == [] {
      OpeningHasRoom(bench, s);
      OpeningIsAdmitted(bench, s, e);
    } else {
      var a := counsel.value;
      var turn := SelectSeat(bench, s).value;
      if a.elapsed >= Remaining(s) {
        ExpiryIsAdmitted(bench, s, a, e);
      } else {
        AskedIsAdmitted(bench, s, a, turn, e);
      }
    }
  }

  lemma OpeningHasRoom(bench: Bench, s: OralState)
    ensures OpeningUnchecked(bench, s).Some? ==> |s.journal| < MAXIMUM_EVENTS
  {
  }

  // The projection's own checks of shape, order, clock and follow-ups refuse nothing that a decision
  // on a valid answer could be: it accepts exactly those decisions.
  lemma {:induction false} ProjectionAcceptsExactlyDecisions(bench: Bench, s: OralState, e: OralEvent)
    requires ValidBench(bench) && ValidState(bench, s)
    ensures ProjectStep(bench, s, e).Some? <==>
            if s.journal == [] then PlanOpening(bench, s) == Some(e)
            else e.counsel.Some? && DecideAnswer(bench, s, e.counsel.value) == Some(e)
  {
    hide ValidBench, ValidState, ValidAnswer, Advance, OpeningUnchecked, AnswerUnchecked, Projected;
    assert Projected(bench, s.journal) == Some(s) by {
      ValidStatesAreTheProjected(bench, s);
    }
    if ProjectStep(bench, s, e).Some? {
      assert e.counsel.Some? ==> ValidAnswer(bench, e.counsel.value);
    } else if s.journal == [] && PlanOpening(bench, s) == Some(e) {
      DecisionIsAdmitted(bench, s, None, e);
    } else if s.journal != [] && e.counsel.Some? && DecideAnswer(bench, s, e.counsel.value) == Some(e) {
      DecisionIsAdmitted(bench, s, e.counsel, e);
    }
  }

  // An event that is the decision in turn was admitted, and has its place in the sequence.
  lemma DecisionInTurn(bench: Bench, s: OralState, e: OralEvent)
    requires ValidBench(bench) && ValidState(bench, s) && WellFormed(bench, e)
    requires DecisionFor(bench, s, e.counsel) == Some(e)
    ensures ProjectStep(bench, s, e) == Some(Advance(bench, s, e))
    ensures |s.journal| < MAXIMUM_EVENTS && e.sequence == s.nextSequence
  {
    hide ValidBench, ValidState, ValidAnswer, WellFormed, KeepsClock, KeepsChain, OpeningUnchecked, AnswerUnchecked,
         Projected, Advance, ShapeOf, ClockOf;
    ValidStatesAreTheProjected(bench, s);
    CounselIsValid(bench, e);
    DecisionIsAdmitted(bench, s, e.counsel, e);
    ProjectedIsSound(bench, s.journal);
    PhaseNotStarted(bench, s);
  }

  // Applying an event is one step of the projection.
  lemma {:induction false} ApplyingIsProjecting(bench: Bench, s: OralState, e: OralEvent)
    requires ValidBench(bench) && ValidState(bench, s)
    ensures ApplyOral(bench, s, e) == ProjectStep(bench, s, e)
  {
    hide ValidBench, ValidState, ValidAnswer, WellFormed, InTurn, KeepsClock, KeepsChain, OpeningUnchecked,
         AnswerUnchecked, Projected, Advance, ShapeOf, ClockOf;
    ValidStatesAreTheProjected(bench, s);
    ProjectedIsSound(bench, s.journal);
    PhaseNotStarted(bench, s);
    if WellFormed(bench, e) && DecisionFor(bench, s, e.counsel) == Some(e) {
      DecisionInTurn(bench, s, e);
    }
  }

  lemma SteppedStateIsValid(bench: Bench, s: OralState, e: OralEvent)
    requires ValidBench(bench) && ValidState(bench, s) && ProjectStep(bench, s, e).Some?
    ensures ValidState(bench, ProjectStep(bench, s, e).value)
    ensures Projected(bench, s.journal + [e]) == ProjectStep(bench, s, e)
    ensures ProjectStep(bench, s, e).value == Advance(bench, s, e)
  {
    hide ValidBench, WithinLimits, WellFormed, InTurn, KeepsClock, KeepsChain, DecisionFor, Advance;
    StepFacts(bench, s, e);
    DecisionInTurn(bench, s, e);
    AdvancedJournal(bench, s, e);
    ValidStatesAreTheProjected(bench, s);
    assert (s.journal + [e])[..|s.journal|] == s.journal;
    ValidStatesAreTheProjected(bench, Advance(bench, s, e));
  }

  lemma AdvancedJournal(bench: Bench, s: OralState, e: OralEvent)
    ensures Advance(bench, s, e).journal == s.journal + [e]
    ensures Advance(bench, s, e).nextSequence == s.nextSequence + 1
  {
  }

  lemma CounselIsValid(bench: Bench, e: OralEvent)
    requires WellFormed(bench, e)
    ensures e.counsel.Some? ==> ValidAnswer(bench, e.counsel.value)
  {
  }

  lemma PhaseNotStarted(bench: Bench, s: OralState)
    requires ShapeOf(bench, s, s.journal) && ClockOf(bench, s, s.journal)
    ensures s.phase == NotStarted <==> s.journal == []
    ensures s.nextSequence == |s.journal| + 1
  {
  }

  // ---------------------------------------------------------------------------------------
  // What a session relies on
  // ---------------------------------------------------------------------------------------

  lemma AppliedFacts(bench: Bench, s: OralState, e: OralEvent)
    requires ApplyOral(bench, s, e).Some?
    ensures var next := ApplyOral(bench, s, e).value;
            && next.journal == s.journal + [e] && next.nextSequence == s.nextSequence + 1
            && ValidState(bench, next)
    ensures ValidBench(bench) && e.sequence == s.nextSequence == |s.journal| + 1 && |s.journal| < MAXIMUM_EVENTS
    ensures if s.journal == [] then PlanOpening(bench, s) == Some(e)
            else e.counsel.Some? && DecideAnswer(bench, s, e.counsel.value) == Some(e)
  {
    hide ValidBench, WellFormed, OpeningUnchecked, AnswerUnchecked, Advance, Projected, ProjectStep, PlanOpening,
         DecideAnswer;
    ApplyingIsProjecting(bench, s, e);
    ProjectionAcceptsExactlyDecisions(bench, s, e);
    SteppedStateIsValid(bench, s, e);
    AdvancedJournal(bench, s, e);
  }

  // A planned opening always applies.
  lemma {:induction false} OpeningFacts(bench: Bench, s: OralState)
    requires PlanOpening(bench, s).Some?
    ensures ApplyOral(bench, s, PlanOpening(bench, s).value).Some?
    ensures s.journal == [] && PlanOpening(bench, s).value.counsel.None?
  {
    hide ValidBench, ValidState, Advance, Projected, ProjectStep, ApplyOral, OpeningUnchecked;
    var e := PlanOpening(bench, s).value;
    ValidStatesAreTheProjected(bench, s);
    OpeningComesFirst(bench, s, e);
    DecisionIsAdmitted(bench, s, None, e);
    ApplyingIsProjecting(bench, s, e);
  }

  lemma OpeningComesFirst(bench: Bench, s: OralState, e: OralEvent)
    requires ValidBench(bench) && Projected(bench, s.journal) == Some(s) && OpeningUnchecked(bench, s) == Some(e)
    ensures s.journal == [] && e.counsel.None?
  {
    hide ValidBench, ShapeOf, ClockOf, Projected, OpeningUnchecked;
    ProjectedIsSound(bench, s.journal);
    OpeningIsAdmitted(bench, s, e);
  }

  // A decided answer always applies.
  lemma {:induction false} AnswerFacts(bench: Bench, s: OralState, a: Answer)
    requires DecideAnswer(bench, s, a).Some?
    ensures ApplyOral(bench, s, DecideAnswer(bench, s, a).value).Some?
    ensures s.journal != [] && DecideAnswer(bench, s, a).value.counsel == Some(a)
  {
    hide ValidBench, ValidState, ValidAnswer, Advance, Projected, ProjectStep, ApplyOral, AnswerUnchecked, ShapeOf,
         ClockOf;
    var e := DecideAnswer(bench, s, a).value;
    ValidStatesAreTheProjected(bench, s);
    ProjectedIsSound(bench, s.journal);
    PhaseNotStarted(bench, s);
    AnswersNeedAClock(bench, s, a);
    DecisionIsAdmitted(bench, s, Some(a), e);
    ApplyingIsProjecting(bench, s, e);
  }

  lemma AnswersNeedAClock(bench: Bench, s: OralState, a: Answer)
    ensures AnswerUnchecked(bench, s, a).Some? ==> s.phase != NotStarted
  {
  }

  lemma InitialIsValid(bench: Bench)
    requires ValidBench(bench)
    ensures ValidState(bench, Initial(bench))
  {
    hide ValidBench;
    ValidStatesAreTheProjected(bench, Initial(bench));
  }

  // Replays a whole journal from the initial state.
  method ReplayJournal(bench: Bench, initial: OralState, journal: seq<OralEvent>) returns (r: Option<OralState>)
    ensures r == if !ValidBench(bench) || |journal| > MAXIMUM_EVENTS || initial != Initial(bench) then None
                 else Projected(bench, journal)
  {
    hide ProjectStep, Initial, ValidBench;
    if !ValidBench(bench) || |journal| > MAXIMUM_EVENTS || initial != Initial(bench) {
      return None;
    }
    var state := initial;
    for i := 0 to |journal|
      invariant Projected(bench, journal[..i]) == Some(state)
    {
      assert journal[..i + 1][..i] == journal[..i];
      var stepped := ProjectStep(bench, state, journal[i]);
      if stepped.None? {
        RefusedProjection(bench, journal, i + 1);
        return None;
      }
      state := stepped.value;
    }
    assert journal[..|journal|] == journal;
    return Some(state);
  }

  lemma {:induction false} RefusedProjection(bench: Bench, journal: seq<OralEvent>, i: nat)
    requires i <= |journal| && Projected(bench, journal[..i]).None?
    ensures Projected(bench, journal).None?
    decreases |journal|
  {
    if i < |journal| {
      assert journal[..|journal| - 1][..i] == journal[..i];
      RefusedProjection(bench, journal[..|journal| - 1], i);
    } else {
      assert journal[..i] == journal;
    }
  }
}

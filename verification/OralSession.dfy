/** The canonical oral-argument session: its log is one opening question and one bench event per answer, and every
    event is decided again from the answers when the log is read. */
module OralSessions {
  import opened SessionStorage
  import opened WorkflowReplay
  import opened OralDecision
  import opened OralEngine

  const EVENT_TYPE := "oral_argument.event.v2"
  const AUTHORITY := "oral.argument.engine.v2"

  // ---- From answers to a transcript ----

  // The decision an event must be: the opening first, then one for each answer.
  function Expected(bench: Bench, s: OralState, counsel: Option<Answer>): Option<OralEvent> {
    if s.journal == [] then PlanOpening(bench, s)
    else match counsel case None => None case Some(answer) => DecideAnswer(bench, s, answer)
  }

  // The state after the opening and these answers.
  function Argued(bench: Bench, answers: seq<Answer>): (s: Option<OralState>)
    ensures s.Some? ==> |s.value.journal| == |answers| + 1 <= MAXIMUM_EVENTS && s.value.nextSequence == |answers| + 2
    ensures s.Some? ==> ValidBench(bench) && ValidState(bench, s.value)
    decreases |answers|
  {
    if answers == [] then
      match PlanOpening(bench, Initial(bench))
      case None => None
      case Some(e) => Applied(bench, Initial(bench), e)
    else
      match Argued(bench, answers[..|answers| - 1])
      case None => None
      case Some(before) =>
        match DecideAnswer(bench, before, answers[|answers| - 1])
        case None => None
        case Some(e) => Applied(bench, before, e)
  }

  // Applying, with what is known of an event that applies.
  function Applied(bench: Bench, s: OralState, e: OralEvent): (next: Option<OralState>)
    ensures next == ApplyOral(bench, s, e)
    ensures next.Some? ==>
              && next.value.journal == s.journal + [e] && next.value.nextSequence == s.nextSequence + 1
              && ValidBench(bench) && ValidState(bench, next.value)
              && e.sequence == s.nextSequence == |s.journal| + 1 && |s.journal| < MAXIMUM_EVENTS
  {
    if ApplyOral(bench, s, e).Some? then AppliedFacts(bench, s, e); ApplyOral(bench, s, e) else None
  }

  // The journal of every argued state projects to that very state.
  lemma {:induction false} ArguedIsItsProjection(bench: Bench, answers: seq<Answer>)
    requires Argued(bench, answers).Some?
    ensures Projected(bench, Argued(bench, answers).value.journal) == Argued(bench, answers)
  {
    hide Argued, Projected, WithinLimits, ValidBench;
  }

  // The state before event `i`: the initial one, or the one after the first answers.
  function Before(bench: Bench, answers: seq<Answer>, i: nat): Option<OralState>
    requires i <= |answers| + 1
  {
    if i == 0 then Some(Initial(bench)) else Argued(bench, answers[..i - 1])
  }

  // A log grows at its end only: earlier states have prefixes of the transcript.
  lemma {:induction false} TranscriptsArePrefixes(bench: Bench, answers: seq<Answer>, i: nat)
    requires Argued(bench, answers).Some? && 1 <= i <= |answers| + 1
    ensures Before(bench, answers, i).Some?
    ensures Before(bench, answers, i).value.journal == Argued(bench, answers).value.journal[..i]
    decreases |answers|
  {
    hide PlanOpening, DecideAnswer, ApplyOral, ValidBench, ValidState, Initial;
    if i == |answers| + 1 {
      assert answers[..i - 1] == answers;
    } else {
      var n := |answers| - 1;
      TranscriptsArePrefixes(bench, answers[..n], i);
      assert answers[..n][..i - 1] == answers[..i - 1];
    }
  }

  // ---- The stored rows ----

  datatype Opening = Opening(sessionId: string, commandId: string, engineRevision: string, recordedAt: string,
                             definition: Bytes)

  datatype CounselCommand = CounselCommand(sessionId: string, commandId: string, recordedAt: string, answer: Answer)

  datatype OralCodec = OralCodec(
    encodeOpening: Opening -> Option<Bytes>,
    decodeOpening: Bytes -> Option<Opening>,
    encodeCounsel: CounselCommand -> Option<Bytes>,
    decodeCounsel: Bytes -> Option<CounselCommand>,
    encodeEvent: OralEvent -> Option<Bytes>,
    decodeEvent: Bytes -> Option<OralEvent>,
    validUtc: string -> bool,
    validId: string -> bool)

  ghost predicate Inverts(codec: OralCodec) {
    && (forall o :: codec.encodeOpening(o).Some? ==> codec.decodeOpening(codec.encodeOpening(o).value) == Some(o))
    && (forall c :: codec.encodeCounsel(c).Some? ==> codec.decodeCounsel(codec.encodeCounsel(c).value) == Some(c))
    && (forall e :: codec.encodeEvent(e).Some? ==> codec.decodeEvent(codec.encodeEvent(e).value) == Some(e))
  }

  // `definition` is the case, the argument configuration and the configuration of the engine.
  datatype OralBinding = OralBinding(sessionId: string, openingId: string, engineRevision: string,
                                     pins: seq<RevisionPin>, definition: Bytes)

  ghost predicate OralBound(codec: OralCodec, b: OralBinding, snapshot: Snapshot) {
    && snapshot.sessionId == b.sessionId && snapshot.engineRevision == b.engineRevision && snapshot.pins == b.pins
    && snapshot.authorityContract == CanonicalV2 && codec.validUtc(snapshot.createdAt)
    && 0 < snapshot.sequence <= MAXIMUM_EVENTS
    && |snapshot.commands| == |snapshot.events| == snapshot.sequence
    && snapshot.docket == [] && snapshot.assetReferences == []
  }

  ghost predicate Envelope(codec: OralCodec, command: StoredCommand, event: StoredEvent, i: nat) {
    && command.expectedSequence == i && event.sequence == i + 1 && codec.validUtc(command.recordedAt)
    && event.eventType == EVENT_TYPE && event.authorityId == AUTHORITY
  }

  ghost predicate OpeningRow(codec: OralCodec, b: OralBinding, command: StoredCommand) {
    && command.commandId == b.openingId
    && codec.decodeOpening(command.payload)
       == Some(Opening(b.sessionId, b.openingId, b.engineRevision, command.recordedAt, b.definition))
  }

  ghost function CounselRow(codec: OralCodec, b: OralBinding, command: StoredCommand): Option<Answer> {
    if !codec.validId(command.commandId) || command.commandId == b.openingId then None
    else
      match codec.decodeCounsel(command.payload)
      case None => None
      case Some(c) =>
        if c != CounselCommand(b.sessionId, command.commandId, command.recordedAt, c.answer) then None
        else Some(c.answer)
  }

  // The rows at position `i` are those of the opening or of answer `i`, and of this event.
  ghost predicate RowsHold(codec: OralCodec, b: OralBinding, snapshot: Snapshot, answers: seq<Answer>, i: nat,
                           e: OralEvent)
    requires i < |snapshot.commands| == |snapshot.events| && i <= |answers|
  {
    && Envelope(codec, snapshot.commands[i], snapshot.events[i], i)
    && (if i == 0 then OpeningRow(codec, b, snapshot.commands[0])
        else CounselRow(codec, b, snapshot.commands[i]) == Some(answers[i - 1]))
    && codec.decodeEvent(snapshot.events[i].payload) == Some(e)
  }

  // The snapshot is the log of these answers.
  ghost predicate LogOf(bench: Bench, codec: OralCodec, b: OralBinding, snapshot: Snapshot, answers: seq<Answer>) {
    && OralBound(codec, b, snapshot)
    && snapshot.sequence == |answers| + 1
    && Argued(bench, answers).Some?
    && forall i :: 0 <= i < |snapshot.events| ==>
         RowsHold(codec, b, snapshot, answers, i, Argued(bench, answers).value.journal[i])
  }

  // The log is determined by its answers: whatever bytes store it, the events and the state are the same; and the
  // rows determine the answers.
  lemma {:induction false} AnswersDetermineTheLog(bench: Bench, codec: OralCodec, b: OralBinding, x: Snapshot,
                                                  y: Snapshot, answers: seq<Answer>)
    requires LogOf(bench, codec, b, x, answers) && LogOf(bench, codec, b, y, answers)
    ensures |x.events| == |y.events|
    ensures forall i :: 0 <= i < |x.events| ==>
              codec.decodeEvent(x.events[i].payload) == codec.decodeEvent(y.events[i].payload)
  {
    forall i | 0 <= i < |x.events|
      ensures codec.decodeEvent(x.events[i].payload) == codec.decodeEvent(y.events[i].payload) {
      var e := Argued(bench, answers).value.journal[i];
      assert RowsHold(codec, b, x, answers, i, e) && RowsHold(codec, b, y, answers, i, e);
    }
  }

  lemma {:induction false} OnlyTheseAnswers(bench: Bench, codec: OralCodec, b: OralBinding, snapshot: Snapshot,
                                            x: seq<Answer>, y: seq<Answer>)
    requires LogOf(bench, codec, b, snapshot, x) && LogOf(bench, codec, b, snapshot, y)
    ensures x == y
  {
    forall i | 0 <= i < |x| ensures x[i] == y[i] {
      assert RowsHold(codec, b, snapshot, x, i + 1, Argued(bench, x).value.journal[i + 1]);
      assert RowsHold(codec, b, snapshot, y, i + 1, Argued(bench, y).value.journal[i + 1]);
    }
  }

  // ---- Reading a log ----

  // The rows before `i` are a log of these answers, leading to this state.
  ghost predicate ReadSoFar(bench: Bench, codec: OralCodec, b: OralBinding, snapshot: Snapshot, answers: seq<Answer>,
                            i: nat, s: OralState)
    requires |snapshot.commands| == |snapshot.events|
  {
    && i <= |snapshot.events| && |answers| == (if i == 0 then 0 else i - 1)
    && Before(bench, answers, i) == Some(s)
    && |s.journal| == i && s.nextSequence == i + 1
    && forall j :: 0 <= j < i ==> RowsHold(codec, b, snapshot, answers, j, s.journal[j])
  }

  // A log of some answers starts with what has been read, and goes on with the event decided next.
  lemma LogGoesOn(bench: Bench, codec: OralCodec, b: OralBinding, snapshot: Snapshot, all: seq<Answer>,
                  answers: seq<Answer>, i: nat, s: OralState)
    requires LogOf(bench, codec, b, snapshot, all) && i < |snapshot.events|
    requires ReadSoFar(bench, codec, b, snapshot, answers, i, s)
    ensures |answers| <= |all| && answers == all[..|answers|] && i <= |all|
    ensures Argued(bench, all).Some? && i < |Argued(bench, all).value.journal|
    ensures RowsHold(codec, b, snapshot, all, i, Argued(bench, all).value.journal[i])
    ensures Expected(bench, s, if i == 0 then None else Some(all[i - 1])) == Some(Argued(bench, all).value.journal[i])
    ensures ApplyOral(bench, s, Argued(bench, all).value.journal[i]).Some?
    ensures Argued(bench, all).value.journal[i].counsel == if i == 0 then None else Some(all[i - 1])
    ensures Argued(bench, all).value.journal[i].sequence == i + 1
  {
    hide Envelope, OpeningRow, PlanOpening, DecideAnswer, ApplyOral, ValidBench, ValidState, Initial;
    assert RowsHold(codec, b, snapshot, all, i, Argued(bench, all).value.journal[i]);
    forall j | 0 <= j < |answers| ensures answers[j] == all[j] {
      assert RowsHold(codec, b, snapshot, answers, j + 1, s.journal[j + 1]);
      assert RowsHold(codec, b, snapshot, all, j + 1, Argued(bench, all).value.journal[j + 1]);
    }
    assert answers == all[..|answers|];
    EventIsDecided(bench, all, i, s);
  }

  lemma EventIsDecided(bench: Bench, all: seq<Answer>, i: nat, s: OralState)
    requires Argued(bench, all).Some? && i <= |all| && Before(bench, all[..if i == 0 then 0 else i - 1], i) == Some(s)
    ensures var e := Argued(bench, all).value.journal[i];
            && Expected(bench, s, if i == 0 then None else Some(all[i - 1])) == Some(e)
            && ApplyOral(bench, s, e).Some?
            && e.counsel == (if i == 0 then None else Some(all[i - 1]))
            && e.sequence == i + 1
  {
    hide PlanOpening, DecideAnswer, ApplyOral, ValidBench, ValidState, Initial;
    TranscriptsArePrefixes(bench, all, i + 1);
    var after := Argued(bench, all[..i]).value;
    assert after.journal == Argued(bench, all).value.journal[..i + 1];
    if i > 0 {
      assert all[..i][..i - 1] == all[..i - 1];
      assert all[..i - 1][..i - 1] == all[..i - 1];
    }
    assert after.journal[i] == Argued(bench, all).value.journal[i];
    if i == 0 {
      OpeningFacts(bench, s);
    } else {
      AnswerFacts(bench, s, all[i - 1]);
    }
  }

  lemma ReadOneMore(bench: Bench, codec: OralCodec, b: OralBinding, snapshot: Snapshot, answers: seq<Answer>, i: nat,
                    s: OralState, counsel: Option<Answer>, e: OralEvent)
    requires |snapshot.commands| == |snapshot.events| && i < |snapshot.events|
    requires ReadSoFar(bench, codec, b, snapshot, answers, i, s)
    requires counsel.None? <==> i == 0
    requires Envelope(codec, snapshot.commands[i], snapshot.events[i], i)
    requires if i == 0 then OpeningRow(codec, b, snapshot.commands[0])
             else CounselRow(codec, b, snapshot.commands[i]) == counsel
    requires codec.decodeEvent(snapshot.events[i].payload) == Some(e)
    requires e.counsel == counsel && ApplyOral(bench, s, e).Some?
    ensures var more := if counsel.None? then answers else answers + [counsel.value];
            ReadSoFar(bench, codec, b, snapshot, more, i + 1, ApplyOral(bench, s, e).value)
  {
    hide OralBound, Envelope, OpeningRow, CounselRow, PlanOpening, DecideAnswer, ApplyOral, ValidBench, ValidState,
         Initial;
    AppliedFacts(bench, s, e);
    var more := if counsel.None? then answers else answers + [counsel.value];
    var next := ApplyOral(bench, s, e).value;
    if i > 0 {
      assert more[..|more| - 1] == answers && answers[..i - 1] == answers;
      assert more[..i] == more;
    } else {
      assert more[..0] == [];
    }
    forall j | 0 <= j < i + 1 ensures RowsHold(codec, b, snapshot, more, j, next.journal[j]) {
      if j < i {
        assert RowsHold(codec, b, snapshot, answers, j, s.journal[j]);
      }
    }
  }

  lemma AppliedJournal(bench: Bench, s: OralState, e: OralEvent)
    requires ApplyOral(bench, s, e).Some?
    ensures ApplyOral(bench, s, e).value.journal == s.journal + [e]
  {
    hide PlanOpening, DecideAnswer, ApplyOral, ValidBench, ValidState, Initial;
    AppliedFacts(bench, s, e);
  }

  // Succeeds exactly on the log of some answers, and yields the state those answers lead to. The
  // replay of the whole journal at the end, and the comparison with the state reached event by
  // event, never fail.
  method ValidateSnapshot(bench: Bench, codec: OralCodec, b: OralBinding, snapshot: Snapshot)
    returns (r: Option<OralState>)
    ensures r.Some? <==> exists answers :: LogOf(bench, codec, b, snapshot, answers)
    ensures r.Some? ==> forall answers :: LogOf(bench, codec, b, snapshot, answers) ==> Argued(bench, answers) == r
  {
    hide Envelope, OpeningRow, CounselRow, ApplyOral, Expected, Argued;
    if snapshot.sessionId != b.sessionId || snapshot.engineRevision != b.engineRevision || snapshot.pins != b.pins
       || snapshot.authorityContract != CanonicalV2 || !codec.validUtc(snapshot.createdAt)
       || snapshot.sequence <= 0 || snapshot.sequence > MAXIMUM_EVENTS
       || |snapshot.commands| != snapshot.sequence || |snapshot.events| != snapshot.sequence
       || snapshot.docket != [] || snapshot.assetReferences != [] {
      return None;
    }
    assert OralBound(codec, b, snapshot);
    hide OralBound;
    var state := Initial(bench);
    var journal: seq<OralEvent> := [];
    ghost var answers: seq<Answer> := [];
    for i := 0 to |snapshot.events|
      invariant ReadSoFar(bench, codec, b, snapshot, answers, i, state)
      invariant state.journal == journal
    {
      hide ReadSoFar, LogOf, RowsHold;
      var command, row := snapshot.commands[i], snapshot.events[i];
      forall all | LogOf(bench, codec, b, snapshot, all)
        ensures i <= |all| && RowsHold(codec, b, snapshot, all, i, Argued(bench, all).value.journal[i])
        ensures Expected(bench, state, if i == 0 then None else Some(all[i - 1])) ==
                Some(Argued(bench, all).value.journal[i])
        ensures ApplyOral(bench, state, Argued(bench, all).value.journal[i]).Some?
        ensures Argued(bench, all).value.journal[i].counsel == if i == 0 then None else Some(all[i - 1])
        ensures Argued(bench, all).value.journal[i].sequence == i + 1
      {
        LogGoesOn(bench, codec, b, snapshot, all, answers, i, state);
      }
      var e := ReadRow(bench, codec, b, snapshot, i, state);
      if e.None? {
        return None;
      }
      var counsel := e.value.counsel;
      ReadOneMore(bench, codec, b, snapshot, answers, i, state, counsel, e.value);
      if counsel.Some? {
        answers := answers + [counsel.value];
      }
      AppliedJournal(bench, state, e.value);
      state := ApplyOral(bench, state, e.value).value;
      journal := journal + [e.value];
    }
    WholeLog(bench, codec, b, snapshot, answers, state);
    ArguedIsItsProjection(bench, answers);
    var replayed := ReplayJournal(bench, Initial(bench), journal);
    if replayed != Some(state) || state.journal != journal || state.nextSequence != snapshot.sequence + 1 {
      assert false;
      return None;
    }
    forall all | LogOf(bench, codec, b, snapshot, all) ensures all == answers {
      OnlyTheseAnswers(bench, codec, b, snapshot, all, answers);
    }
    return Some(state);
  }

  lemma WholeLog(bench: Bench, codec: OralCodec, b: OralBinding, snapshot: Snapshot, answers: seq<Answer>, s: OralState)
    requires OralBound(codec, b, snapshot) && ReadSoFar(bench, codec, b, snapshot, answers, |snapshot.events|, s)
    ensures LogOf(bench, codec, b, snapshot, answers) && Argued(bench, answers) == Some(s)
  {
    hide Envelope, OpeningRow, CounselRow, PlanOpening, DecideAnswer, ApplyOral, ValidBench, ValidState, Initial;
    assert answers[..|answers|] == answers;
  }

  // The checks on one pair of rows; the event found is the one decided again from the state so far.
  method ReadRow(bench: Bench, codec: OralCodec, b: OralBinding, snapshot: Snapshot, i: nat, s: OralState)
    returns (e: Option<OralEvent>)
    requires |snapshot.commands| == |snapshot.events| && i < |snapshot.events| && (i == 0 <==> s.journal == [])
    ensures e.Some? ==>
              && Envelope(codec, snapshot.commands[i], snapshot.events[i], i)
              && (i == 0 ==> OpeningRow(codec, b, snapshot.commands[0]) && e.value.counsel.None?)
              && (i > 0 ==> e.value.counsel.Some? && CounselRow(codec, b, snapshot.commands[i]) == e.value.counsel)
              && codec.decodeEvent(snapshot.events[i].payload) == e
              && ApplyOral(bench, s, e.value).Some?
    ensures e.None? ==> forall all: seq<Answer>, f ::
              i <= |all| && RowsHold(codec, b, snapshot, all, i, f) && f.sequence == i + 1
              && f.counsel == (if i == 0 then None else Some(all[i - 1]))
              ==> Expected(bench, s, f.counsel) != Some(f) || ApplyOral(bench, s, f).None?
  {
    hide PlanOpening, DecideAnswer, ApplyOral;
    var command, row := snapshot.commands[i], snapshot.events[i];
    if command.expectedSequence != i || row.sequence != i + 1 || !codec.validUtc(command.recordedAt)
       || row.eventType != EVENT_TYPE || row.authorityId != AUTHORITY {
      return None;
    }
    var answer: Option<Answer> := None;
    if i == 0 {
      var opening := codec.decodeOpening(command.payload);
      if command.commandId != b.openingId
         || opening != Some(Opening(b.sessionId, b.openingId, b.engineRevision, command.recordedAt, b.definition)) {
        return None;
      }
    } else {
      var counsel := codec.decodeCounsel(command.payload);
      if !codec.validId(command.commandId) || command.commandId == b.openingId || counsel.None?
         || counsel.value.sessionId != b.sessionId || counsel.value.commandId != command.commandId
         || counsel.value.recordedAt != command.recordedAt {
        return None;
      }
      answer := Some(counsel.value.answer);
    }
    var decoded := codec.decodeEvent(row.payload);
    if decoded.None? || decoded.value.sequence != i + 1 || decoded.value.counsel != answer {
      return None;
    }
    var decision := if i == 0 then PlanOpening(bench, s) else DecideAnswer(bench, s, answer.value);
    if decision != decoded {
      return None;
    }
    if ApplyOral(bench, s, decoded.value).None? {
      return None;
    }
    e := decoded;
  }

  // ---- Writing a log ----

  function EventBatch(commandId: string, payload: Bytes, recordedAt: string, event: Bytes): CommitBatch {
    CommitBatch(commandId, payload, recordedAt, [EventWrite(EVENT_TYPE, event, AUTHORITY)], [], [])
  }

  function Created(b: OralBinding, createdAt: string): Snapshot {
    Snapshot(b.sessionId, b.engineRevision, CanonicalV2, 0, b.pins, [], [], [], [], createdAt)
  }

  function OpeningOf(b: OralBinding, createdAt: string): Opening {
    Opening(b.sessionId, b.openingId, b.engineRevision, createdAt, b.definition)
  }

  lemma OpeningIsALog(bench: Bench, codec: OralCodec, b: OralBinding, createdAt: string)
    requires Inverts(codec) && codec.validUtc(createdAt) && PlanOpening(bench, Initial(bench)).Some?
    requires codec.encodeOpening(OpeningOf(b, createdAt)).Some?
    requires codec.encodeEvent(PlanOpening(bench, Initial(bench)).value).Some?
    ensures var e := PlanOpening(bench, Initial(bench)).value;
            var batch := EventBatch(b.openingId, codec.encodeOpening(OpeningOf(b, createdAt)).value, createdAt,
                                    codec.encodeEvent(e).value);
            LogOf(bench, codec, b, Appended(Created(b, createdAt), batch), [])
  {
    hide PlanOpening, DecideAnswer, ApplyOral, ValidBench, ValidState, Initial, WellFormed;
    OpeningFacts(bench, Initial(bench));
    AppliedFacts(bench, Initial(bench), PlanOpening(bench, Initial(bench)).value);
    var opening := PlanOpening(bench, Initial(bench)).value;
    assert Initial(bench).journal + [opening] == [opening];
  }

  lemma AnswerExtendsTheLog(bench: Bench, codec: OralCodec, b: OralBinding, snapshot: Snapshot, answers: seq<Answer>,
                            c: CounselCommand)
    requires Inverts(codec) && LogOf(bench, codec, b, snapshot, answers)
    requires codec.validId(c.commandId) && c.commandId != b.openingId && codec.validUtc(c.recordedAt)
             && c.sessionId == b.sessionId
    requires codec.encodeCounsel(c).Some?
    requires DecideAnswer(bench, Argued(bench, answers).value, c.answer).Some?
    requires codec.encodeEvent(DecideAnswer(bench, Argued(bench, answers).value, c.answer).value).Some?
    ensures var e := DecideAnswer(bench, Argued(bench, answers).value, c.answer).value;
            var batch := EventBatch(c.commandId, codec.encodeCounsel(c).value, c.recordedAt,
                                    codec.encodeEvent(e).value);
            && ApplyOral(bench, Argued(bench, answers).value, e).Some?
            && Argued(bench, answers + [c.answer]) == ApplyOral(bench, Argued(bench, answers).value, e)
            && LogOf(bench, codec, b, Appended(snapshot, batch), answers + [c.answer])
  {
    hide OpeningRow, PlanOpening, DecideAnswer, ApplyOral, ValidBench, ValidState, Initial;
    var s := Argued(bench, answers).value;
    var e := DecideAnswer(bench, s, c.answer).value;
    var batch := EventBatch(c.commandId, codec.encodeCounsel(c).value, c.recordedAt, codec.encodeEvent(e).value);
    AnswerFacts(bench, s, c.answer);
    AppliedFacts(bench, s, e);
    var next, longer := Appended(snapshot, batch), answers + [c.answer];
    assert longer[..|answers|] == answers;
    forall i | 0 <= i < |next.events|
      ensures RowsHold(codec, b, next, longer, i, Argued(bench, longer).value.journal[i]) {
      if i < |snapshot.events| {
        assert RowsHold(codec, b, snapshot, answers, i, s.journal[i]);
      }
    }
  }

  // ---- The controller ----

  datatype OralError =
    | InvalidConfiguration
    | CommandCodecFailure
    | EngineFailure
    | EventCodecFailure
    | SessionStoreFailure
    | CorruptSession

  datatype OralOutcome<+T> = Done(value: T) | Failed(error: OralError)

  class OralSession {
    const bench: Bench
    const codec: OralCodec
    const b: OralBinding
    const store: SessionStore
    var state: OralState
    var snapshot: Snapshot
    ghost var answers: seq<Answer>  // those in memory
    ghost var held: seq<Answer>     // those in the database

    ghost predicate Valid()
      reads this, store
    {
      && Inverts(codec)
      && LogOf(bench, codec, b, store.row, held)
      && answers <= held
      && Argued(bench, answers) == Some(state)
      && snapshot.sequence == |answers| + 1
      && (answers == held ==> snapshot == store.row)
    }

    ghost predicate InSync()
      reads this
    {
      answers == held
    }

    constructor (bench: Bench, codec: OralCodec, b: OralBinding, store: SessionStore, state: OralState,
                 ghost answers: seq<Answer>)
      requires Inverts(codec) && LogOf(bench, codec, b, store.row, answers) && Argued(bench, answers) == Some(state)
      ensures Valid() && InSync() && this.answers == answers && this.state == state
      ensures this.bench == bench && this.codec == codec && this.b == b && this.store == store
    {
      this.bench, this.codec, this.b, this.store := bench, codec, b, store;
      this.state, this.snapshot, this.answers, this.held := state, store.row, answers, answers;
    }

    predicate Answerable(commandId: string, answer: Answer, recordedAt: string)
      reads this
    {
      && codec.validId(commandId) && commandId != b.openingId && codec.validUtc(recordedAt)
      && codec.encodeCounsel(CounselCommand(b.sessionId, commandId, recordedAt, answer)).Some?
      && DecideAnswer(bench, state, answer).Some?
      && codec.encodeEvent(DecideAnswer(bench, state, answer).value).Some?
    }

    // One more answer is committed and verified, or memory stays as it was. Verification after a commit never fails.
    method Submit(commandId: string, answer: Answer, recordedAt: string, fault: StoreFault)
      returns (r: OralOutcome<OralEvent>)
      requires Valid()
      modifies this, store
      ensures Valid()
      ensures r.Done? <==> old(Answerable(commandId, answer, recordedAt)) && old(InSync()) && fault == NoFault
                           && old(forall c :: c in store.row.commands ==> c.commandId != commandId)
      ensures r.Done? ==>
                InSync() && answers == old(answers) + [answer]
                && Some(r.value) == DecideAnswer(bench, old(state), answer)
                && old(state).journal != [] && AnswersAs(bench, old(state).journal, answer, r.value)
      ensures r.Failed? ==> state == old(state) && snapshot == old(snapshot) && answers == old(answers)
      ensures r.Failed? ==> held == old(held) || (fault == ReloadFails && old(InSync()) && held == old(held) + [answer])
      ensures r != Failed(CorruptSession)
    {
      hide LogOf, Inverts, Argued, AnswersAs;
      if !codec.validId(commandId) || commandId == b.openingId || !codec.validUtc(recordedAt)
         || snapshot.sequence != |state.journal| || snapshot.sequence >= MAXIMUM_EVENTS {
        return Failed(InvalidConfiguration);
      }
      var command := CounselCommand(b.sessionId, commandId, recordedAt, answer);
      var payload := codec.encodeCounsel(command);
      if payload.None? {
        return Failed(CommandCodecFailure);
      }
      var event := DecideAnswer(bench, state, answer);
      if event.None? {
        return Failed(EngineFailure);
      }
      var encoded := codec.encodeEvent(event.value);
      if encoded.None? {
        return Failed(EventCodecFailure);
      }
      var projected := ApplyOral(bench, state, event.value);
      AnswerFacts(bench, state, answer);
      AnswerIsCalledFor(bench, state, answer);
      if projected.None? {
        assert false;
        return Failed(EngineFailure);
      }
      r := Commit(command, event.value, payload.value, encoded.value, projected.value, fault);
    }

    method Commit(command: CounselCommand, event: OralEvent, payload: Bytes, encoded: Bytes, projected: OralState,
                  fault: StoreFault)
      returns (r: OralOutcome<OralEvent>)
      requires Valid()
      requires codec.validId(command.commandId) && command.commandId != b.openingId
               && codec.validUtc(command.recordedAt)
      requires command.sessionId == b.sessionId && codec.encodeCounsel(command) == Some(payload)
      requires DecideAnswer(bench, state, command.answer) == Some(event) && codec.encodeEvent(event) == Some(encoded)
      requires ApplyOral(bench, state, event) == Some(projected)
      modifies this, store
      ensures Valid()
      ensures r == if old(InSync()) && fault == NoFault
                      && old(forall c :: c in store.row.commands ==> c.commandId != command.commandId)
                   then Done(event) else Failed(SessionStoreFailure)
      ensures r.Done? ==> InSync() && answers == old(answers) + [command.answer]
      ensures r.Failed? ==> state == old(state) && snapshot == old(snapshot) && answers == old(answers)
      ensures r.Failed? ==>
                held == old(held) || (fault == ReloadFails && old(InSync()) && held == old(held) + [command.answer])
    {
      hide LogOf, Inverts, Argued, DecideAnswer, ApplyOral, Appended, ValidBench, ValidState, Initial;
      var batch := EventBatch(command.commandId, payload, command.recordedAt, encoded);
      LogIsCounted(bench, codec, b, store.row, held);
      if InSync() {
        AnswerExtendsTheLog(bench, codec, b, store.row, held, command);
      }
      var committed := store.Append(snapshot.sequence, batch, fault);
      if !committed {
        return Failed(SessionStoreFailure);
      }
      held := held + [command.answer];
      LogIsCounted(bench, codec, b, store.row, held);
      if fault == ReloadFails {
        return Failed(SessionStoreFailure);
      }
      var verified := ValidateSnapshot(bench, codec, b, store.row);
      if verified != Some(projected) {
        assert false;
        return;
      }
      state, snapshot, answers := projected, store.row, held;
      return Done(event);
    }
  }

  lemma LogIsCounted(bench: Bench, codec: OralCodec, b: OralBinding, snapshot: Snapshot, answers: seq<Answer>)
    ensures LogOf(bench, codec, b, snapshot, answers) ==> snapshot.sequence == |answers| + 1
  {
  }

  // A new session: succeeds whenever the opening can be planned and encoded.
  method Create(bench: Bench, codec: OralCodec, b: OralBinding, createdAt: string) returns (r: OralOutcome<OralSession>)
    requires Inverts(codec)
    ensures r.Done? <==> codec.validUtc(createdAt) && codec.encodeOpening(OpeningOf(b, createdAt)).Some?
                         && PlanOpening(bench, Initial(bench)).Some?
                         && codec.encodeEvent(PlanOpening(bench, Initial(bench)).value).Some?
    ensures r.Done? ==>
              fresh(r.value) && fresh(r.value.store) && r.value.Valid() && r.value.InSync() && r.value.answers == []
    ensures r.Done? ==> r.value.bench == bench && r.value.codec == codec && r.value.b == b
    ensures r == Failed(InvalidConfiguration) <==> !codec.validUtc(createdAt) || !ProperBench(bench)
    ensures r.Done? ==> |r.value.state.journal| == 1 && OpensAs(bench, r.value.state.journal[0])
    ensures r != Failed(CorruptSession)
  {
    BenchIsProperExactlyWhen(bench);
    hide LogOf, Inverts, Appended, OpensAs, ProperBench;
    if !codec.validUtc(createdAt) || !ValidBench(bench) {
      return Failed(InvalidConfiguration);
    }
    var payload := codec.encodeOpening(OpeningOf(b, createdAt));
    if payload.None? {
      return Failed(CommandCodecFailure);
    }
    var opening := PlanOpening(bench, Initial(bench));
    if opening.None? {
      return Failed(EngineFailure);
    }
    var encoded := codec.encodeEvent(opening.value);
    if encoded.None? {
      return Failed(EventCodecFailure);
    }
    var projected := ApplyOral(bench, Initial(bench), opening.value);
    OpeningFacts(bench, Initial(bench));
    OpeningIsCalledFor(bench, Initial(bench), opening.value);
    if projected.None? {
      assert false;
      return Failed(EngineFailure);
    }
    OpeningIsALog(bench, codec, b, createdAt);
    var store := new SessionStore(Appended(Created(b, createdAt),
                                           EventBatch(b.openingId, payload.value, createdAt, encoded.value)));
    var verified := ValidateSnapshot(bench, codec, b, store.row);
    if verified.None? || verified != projected {
      assert false;
      return;
    }
    var session := new OralSession(bench, codec, b, store, verified.value, []);
    return Done(session);
  }

  datatype Turn = Turn(commandId: string, answer: Answer, recordedAt: string, fault: StoreFault)

  // Every log written by a creation and any submissions after it is accepted again, and leads to the state in memory
  // unless a reload had failed.
  method AcceptsWhatItWrote(bench: Bench, codec: OralCodec, b: OralBinding, createdAt: string, run: seq<Turn>)
    returns (r: OralOutcome<OralSession>, again: Option<OralState>)
    requires Inverts(codec)
    ensures r.Done? ==> r.value.Valid() && again == Argued(bench, r.value.held) && again.Some?
    ensures r.Done? && r.value.InSync() ==> again == Some(r.value.state)
  {
    hide LogOf, Inverts, Argued, PlanOpening, DecideAnswer;
    again := None;
    r := Create(bench, codec, b, createdAt);
    if r.Failed? {
      return;
    }
    var session := r.value;
    for i := 0 to |run|
      invariant session.Valid() && fresh(session) && fresh(session.store)
      invariant session.bench == bench && session.codec == codec && session.b == b
    {
      var t := run[i];
      var _ := session.Submit(t.commandId, t.answer, t.recordedAt, t.fault);
    }
    again := ValidateSnapshot(bench, codec, b, session.store.row);
  }
}

/** The journal of a workflow and its replay: every command is decided again and its events are applied.
    What operations do to the matter itself is a parameter; the envelope around them is the engine's. */
module WorkflowReplay {
  import opened SessionStorage

  datatype Option<+T> = None | Some(value: T)

  const MAXIMUM_JOURNAL_ENTRIES := 4096
  const MAXIMUM_EVENTS_PER_COMMAND := 3

  // `document` is the document the command brings, under the purpose of its kind.
  datatype Command = Command(sessionId: string, commandId: string, document: Option<AssetReference>, content: Bytes)

  datatype Header = Header(sessionId: string, workflowId: string, commandId: string, sequence: nat, index: nat,
                           count: nat)

  // `title` and `status` are what the docket shows of the event.
  datatype Event = Event(header: Header, eventType: string, authorityId: string, title: string, status: string,
                         content: Bytes)

  datatype Pending = Pending(commandId: string, nextIndex: nat, count: nat)

  datatype State = State(sessionId: string, nextSequence: nat, pending: Option<Pending>, decided: seq<string>,
                         matter: Bytes)

  datatype Entry = Entry(command: Command, events: seq<Event>)

  // The parts of the engine that depend on the workflow definition and the case.
  datatype Workflow = Workflow(
    id: string,
    initial: State,
    consistent: State -> bool,
    validId: string -> bool,
    decideContent: (State, Command) -> Option<seq<Event>>,
    applyContent: (State, Event) -> Option<Bytes>)

  // Decided events carry the identifier of their command.
  ghost predicate DecidesForTheCommand(w: Workflow) {
    forall s, c :: w.decideContent(s, c).Some? ==>
      forall e :: e in w.decideContent(s, c).value ==> e.header.commandId == c.commandId
  }

  // A canonical clean initial state of a consistent configuration.
  ghost predicate Ready(w: Workflow) {
    && DecidesForTheCommand(w)
    && w.initial.nextSequence == 1 && w.initial.pending.None? && w.initial.decided == []
    && w.consistent(w.initial)
  }

  // ---- The engine ----

  // States come from a replay, which ends in a consistent one, so the validation in front of a decision passes.
  function Decide(w: Workflow, s: State, c: Command): (r: Option<seq<Event>>)
    ensures r.Some? ==> 1 <= |r.value| <= MAXIMUM_EVENTS_PER_COMMAND
  {
    if c.sessionId != s.sessionId || !w.validId(c.commandId) || s.pending.Some?
       || |s.decided| == MAXIMUM_JOURNAL_ENTRIES then None
    else
      match w.decideContent(s, c)
      case None => None
      case Some(events) => if 1 <= |events| <= MAXIMUM_EVENTS_PER_COMMAND then Some(events) else None
  }

  predicate GoodEnvelope(w: Workflow, s: State, h: Header) {
    && h.sessionId == s.sessionId && h.workflowId == w.id && h.sequence == s.nextSequence
    && h.index < h.count <= MAXIMUM_EVENTS_PER_COMMAND
    && match s.pending
       case Some(p) => p == Pending(h.commandId, h.index, h.count)
       case None => h.index == 0 && h.commandId !in s.decided
  }

  function Advance(s: State, h: Header): State {
    if h.index + 1 == h.count then
      s.(nextSequence := s.nextSequence + 1, pending := None, decided := s.decided + [h.commandId])
    else
      s.(nextSequence := s.nextSequence + 1, pending := Some(Pending(h.commandId, h.index + 1, h.count)))
  }

  function Apply(w: Workflow, s: State, e: Event): Option<State> {
    if !GoodEnvelope(w, s, e.header) then None
    else
      match w.applyContent(s, e)
      case None => None
      case Some(matter) => Some(Advance(s.(matter := matter), e.header))
  }

  function ApplyAll(w: Workflow, s: State, events: seq<Event>): Option<State> {
    if events == [] then Some(s)
    else
      match ApplyAll(w, s, events[..|events| - 1])
      case None => None
      case Some(before) => Apply(w, before, events[|events| - 1])
  }

  function ReplayEntry(w: Workflow, s: State, entry: Entry): Option<State> {
    if Decide(w, s, entry.command) != Some(entry.events) then None
    else
      match ApplyAll(w, s, entry.events)
      case None => None
      case Some(next) => if next.pending.Some? then None else Some(next)
  }

  function ReplayEntries(w: Workflow, journal: seq<Entry>): Option<State> {
    if journal == [] then Some(w.initial)
    else
      match ReplayEntries(w, journal[..|journal| - 1])
      case None => None
      case Some(before) => ReplayEntry(w, before, journal[|journal| - 1])
  }

  function Replayed(w: Workflow, journal: seq<Entry>): Option<State> {
    if |journal| > MAXIMUM_JOURNAL_ENTRIES || !w.consistent(w.initial) || w.initial.nextSequence != 1 then None
    else
      match ReplayEntries(w, journal)
      case None => None
      case Some(last) => if w.consistent(last) then Some(last) else None
  }

  method Replay(w: Workflow, journal: seq<Entry>) returns (r: Option<State>)
    ensures r == Replayed(w, journal)
  {
    if |journal| > MAXIMUM_JOURNAL_ENTRIES || !w.consistent(w.initial) || w.initial.nextSequence != 1 {
      return None;
    }
    var state := w.initial;
    for k := 0 to |journal|
      invariant ReplayEntries(w, journal[..k]) == Some(state)
    {
      assert journal[..k + 1][..k] == journal[..k];
      var entry := journal[k];
      if entry.events == [] || |entry.events| > MAXIMUM_EVENTS_PER_COMMAND
         || Decide(w, state, entry.command) != Some(entry.events) {
        ReplayStops(w, journal, k + 1);
        return None;
      }
      ghost var before := state;
      for i := 0 to |entry.events|
        invariant ApplyAll(w, before, entry.events[..i]) == Some(state)
      {
        assert entry.events[..i + 1][..i] == entry.events[..i];
        var next := Apply(w, state, entry.events[i]);
        if next.None? {
          ApplyStops(w, before, entry.events, i + 1);
          ReplayStops(w, journal, k + 1);
          return None;
        }
        state := next.value;
      }
      assert entry.events[..|entry.events|] == entry.events;
      if state.pending.Some? {
        ReplayStops(w, journal, k + 1);
        return None;
      }
    }
    assert journal[..|journal|] == journal;
    r := if w.consistent(state) then Some(state) else None;
  }

  lemma {:induction false} ReplayStops(w: Workflow, journal: seq<Entry>, k: nat)
    requires k <= |journal| && ReplayEntries(w, journal[..k]).None?
    ensures ReplayEntries(w, journal).None?
    decreases |journal|
  {
    if k < |journal| {
      assert journal[..|journal| - 1][..k] == journal[..k];
      ReplayStops(w, journal[..|journal| - 1], k);
    } else {
      assert journal[..k] == journal;
    }
  }

  lemma {:induction false} ApplyStops(w: Workflow, s: State, events: seq<Event>, k: nat)
    requires k <= |events| && ApplyAll(w, s, events[..k]).None?
    ensures ApplyAll(w, s, events).None?
    decreases |events|
  {
    if k < |events| {
      assert events[..|events| - 1][..k] == events[..k];
      ApplyStops(w, s, events[..|events| - 1], k);
    } else {
      assert events[..k] == events;
    }
  }

  // ---- What a journal that replays looks like ----

  function AllEvents(journal: seq<Entry>): seq<Event> {
    if journal == [] then [] else AllEvents(journal[..|journal| - 1]) + journal[|journal| - 1].events
  }

  function Start(journal: seq<Entry>, k: nat): nat
    requires k <= |journal|
  {
    |AllEvents(journal[..k])|
  }

  predicate GoodHeader(w: Workflow, entry: Entry, start: nat, i: nat)
    requires i < |entry.events|
  {
    entry.events[i].header
    == Header(w.initial.sessionId, w.id, entry.command.commandId, start + i + 1, i, |entry.events|)
  }

  predicate GoodEntry(w: Workflow, entry: Entry, start: nat) {
    && 1 <= |entry.events| <= MAXIMUM_EVENTS_PER_COMMAND
    && entry.command.sessionId == w.initial.sessionId && w.validId(entry.command.commandId)
    && forall i :: 0 <= i < |entry.events| ==> GoodHeader(w, entry, start, i)
  }

  predicate GoodEntries(w: Workflow, journal: seq<Entry>) {
    forall k :: 0 <= k < |journal| ==> GoodEntry(w, journal[k], Start(journal, k))
  }

  predicate DistinctCommands(journal: seq<Entry>) {
    forall j, k :: 0 <= j < k < |journal| ==> journal[j].command.commandId != journal[k].command.commandId
  }

  predicate GoodJournal(w: Workflow, journal: seq<Entry>) {
    GoodEntries(w, journal) && DistinctCommands(journal)
  }

  // Where a group of events stands after `i` of them: the sequence, and what is pending or decided.
  lemma {:induction false} GroupSoFar(w: Workflow, s: State, c: Command, events: seq<Event>, i: nat, after: State)
    requires s.pending.None? && 1 <= i <= |events| && ApplyAll(w, s, events[..i]) == Some(after)
    requires forall e :: e in events ==> e.header.commandId == c.commandId
    ensures after.sessionId == s.sessionId && after.nextSequence == s.nextSequence + i
    ensures var n := events[0].header.count;
            && (forall k :: 0 <= k < i ==>
                events[k].header == Header(s.sessionId, w.id, c.commandId, s.nextSequence + k, k, n))
            && i <= n && c.commandId !in s.decided
            && after.pending == (if i == n then None else Some(Pending(c.commandId, i, n)))
            && after.decided == (if i == n then s.decided + [c.commandId] else s.decided)
    decreases i
  {
    var last := events[i - 1];
    assert events[..i][..i - 1] == events[..i - 1];
    assert last in events;
    if i > 1 {
      GroupSoFar(w, s, c, events, i - 1, ApplyAll(w, s, events[..i - 1]).value);
    } else {
      assert ApplyAll(w, s, events[..0]) == Some(s);
    }
  }

  lemma EntryShape(w: Workflow, s: State, entry: Entry, after: State)
    requires DecidesForTheCommand(w) && s.pending.None? && ReplayEntry(w, s, entry) == Some(after)
    ensures 1 <= |entry.events| <= MAXIMUM_EVENTS_PER_COMMAND
    ensures entry.command.sessionId == s.sessionId && w.validId(entry.command.commandId)
    ensures forall i :: 0 <= i < |entry.events| ==>
              entry.events[i].header
              == Header(s.sessionId, w.id, entry.command.commandId, s.nextSequence + i, i, |entry.events|)
    ensures after.sessionId == s.sessionId && after.nextSequence == s.nextSequence + |entry.events|
            && after.pending.None?
    ensures entry.command.commandId !in s.decided && after.decided == s.decided + [entry.command.commandId]
  {
    hide Apply;
    assert entry.events[..|entry.events|] == entry.events;
    GroupSoFar(w, s, entry.command, entry.events, |entry.events|, after);
  }

  // What each event of the group changes is accepted in the state its predecessors lead to.
  ghost predicate ContentsApply(w: Workflow, s: State, events: seq<Event>) {
    forall i, t :: 0 <= i < |events| && ApplyAll(w, s, events[..i]) == Some(t) ==> w.applyContent(t, events[i]).Some?
  }

  // The events are numbered on from the state and within their group, under the command.
  ghost predicate HeadersFit(w: Workflow, s: State, c: Command, events: seq<Event>) {
    forall i :: 0 <= i < |events| ==>
      events[i].header == Header(s.sessionId, w.id, c.commandId, s.nextSequence + i, i, |events|)
  }

  lemma {:induction false} GroupApplies(w: Workflow, s: State, c: Command, events: seq<Event>, i: nat)
    requires s.pending.None? && c.commandId !in s.decided && 1 <= |events| <= MAXIMUM_EVENTS_PER_COMMAND
    requires HeadersFit(w, s, c, events) && ContentsApply(w, s, events) && i <= |events|
    ensures ApplyAll(w, s, events[..i]).Some?
    decreases i
  {
    hide ContentsApply;
    if i > 0 {
      GroupApplies(w, s, c, events, i - 1);
      assert events[..i][..i - 1] == events[..i - 1];
      var before := ApplyAll(w, s, events[..i - 1]).value;
      if i > 1 {
        GroupSoFar(w, s, c, events, i - 1, before);
      }
      assert w.applyContent(before, events[i - 1]).Some? by {
        ContentApplies(w, s, events, i - 1, before);
      }
    }
  }

  lemma ContentApplies(w: Workflow, s: State, events: seq<Event>, i: nat, t: State)
    requires ContentsApply(w, s, events) && i < |events| && ApplyAll(w, s, events[..i]) == Some(t)
    ensures w.applyContent(t, events[i]).Some?
  {
  }

  lemma {:induction false} AppliedContents(w: Workflow, s: State, events: seq<Event>, i: nat, t: State)
    requires i < |events| && ApplyAll(w, s, events).Some? && ApplyAll(w, s, events[..i]) == Some(t)
    ensures w.applyContent(t, events[i]).Some?
  {
    if ApplyAll(w, s, events[..i + 1]).None? {
      ApplyStops(w, s, events, i + 1);
    }
    assert events[..i + 1][..i] == events[..i];
  }

  // An entry replays exactly when its events are those decided again, under a command that is new,
  // with the headers of its group, and their contents apply.
  lemma {:induction false} EntryReplaysExactlyWhen(w: Workflow, s: State, entry: Entry)
    requires DecidesForTheCommand(w) && s.pending.None?
    ensures ReplayEntry(w, s, entry).Some? <==>
            && Decide(w, s, entry.command) == Some(entry.events)
            && entry.command.commandId !in s.decided
            && HeadersFit(w, s, entry.command, entry.events) && ContentsApply(w, s, entry.events)
  {
    hide Apply, ContentsApply;
    if ReplayEntry(w, s, entry).Some? {
      EntryShape(w, s, entry, ReplayEntry(w, s, entry).value);
      assert ContentsApply(w, s, entry.events) by {
        AllContentsApply(w, s, entry.events);
      }
    } else if Decide(w, s, entry.command) == Some(entry.events) && entry.command.commandId !in s.decided
              && HeadersFit(w, s, entry.command, entry.events) && ContentsApply(w, s, entry.events) {
      GroupApplies(w, s, entry.command, entry.events, |entry.events|);
      assert entry.events[..|entry.events|] == entry.events;
      GroupSoFar(w, s, entry.command, entry.events, |entry.events|, ApplyAll(w, s, entry.events).value);
    }
  }

  lemma AllContentsApply(w: Workflow, s: State, events: seq<Event>)
    requires ApplyAll(w, s, events).Some?
    ensures ContentsApply(w, s, events)
  {
    forall i, t | 0 <= i < |events| && ApplyAll(w, s, events[..i]) == Some(t)
      ensures w.applyContent(t, events[i]).Some?
    {
      AppliedContents(w, s, events, i, t);
    }
  }

  // A command is decided exactly in its own session, under a valid identifier, with nothing pending
  // and room in the journal, when the workflow decides one to three events.
  lemma {:induction false} DecidedExactlyWhen(w: Workflow, s: State, c: Command, events: seq<Event>)
    requires |s.decided| <= 4096
    ensures Decide(w, s, c) == Some(events) <==>
            && c.sessionId == s.sessionId && w.validId(c.commandId) && s.pending == None && |s.decided| < 4096
            && w.decideContent(s, c) == Some(events) && 0 < |events| < 4
  {
  }

  // A journal that replays has groups of one to three events, numbered from one without gaps, headed by
  // their own command, each command once; the state counts them.
  lemma {:induction false} ReplayedJournalShape(w: Workflow, journal: seq<Entry>)
    requires Ready(w) && ReplayEntries(w, journal).Some?
    ensures var last := ReplayEntries(w, journal).value;
            && GoodJournal(w, journal)
            && last.sessionId == w.initial.sessionId && last.pending.None?
            && last.nextSequence == |AllEvents(journal)| + 1
            && |last.decided| == |journal|
            && forall k :: 0 <= k < |journal| ==> last.decided[k] == journal[k].command.commandId
    decreases |journal|
  {
    hide GoodEntry, GoodJournal, ReplayEntry, DecidesForTheCommand;
    if journal == [] {
      NoEntriesAreGood(w);
    } else {
      var n := |journal| - 1;
      ReplayedJournalShape(w, journal[..n]);
      var before := ReplayEntries(w, journal[..n]).value;
      EntryShape(w, before, journal[n], ReplayEntries(w, journal).value);
      GoodEntryAt(w, journal[n], |AllEvents(journal[..n])|);
      forall k | 0 <= k < n ensures journal[k].command.commandId != journal[n].command.commandId {
        assert before.decided[k] == journal[..n][k].command.commandId;
        assert before.decided[k] in before.decided;
      }
      GoodJournalStep(w, journal);
    }
  }

  lemma NoEntriesAreGood(w: Workflow)
    ensures GoodJournal(w, [])
  {
  }

  lemma GoodEntriesStep(w: Workflow, journal: seq<Entry>)
    requires journal != []
    ensures var n := |journal| - 1;
            GoodEntries(w, journal) <==>
            GoodEntries(w, journal[..n]) && GoodEntry(w, journal[n], |AllEvents(journal[..n])|)
  {
    hide GoodEntry, AllEvents;
    var n := |journal| - 1;
    forall k | 0 <= k < n ensures Start(journal[..n], k) == Start(journal, k) {
      assert journal[..n][..k] == journal[..k];
    }
    if GoodEntries(w, journal[..n]) {
      forall k | 0 <= k < n ensures GoodEntry(w, journal[k], Start(journal, k)) {
        assert journal[..n][k] == journal[k];
      }
    }
  }

  lemma GoodJournalStep(w: Workflow, journal: seq<Entry>)
    requires journal != []
    ensures var n := |journal| - 1;
            GoodJournal(w, journal) <==>
            && GoodJournal(w, journal[..n]) && GoodEntry(w, journal[n], |AllEvents(journal[..n])|)
            && forall k :: 0 <= k < n ==> journal[k].command.commandId != journal[n].command.commandId
  {
    hide GoodEntry, GoodEntries, AllEvents;
    GoodEntriesStep(w, journal);
  }

  lemma GoodEntryAt(w: Workflow, entry: Entry, start: nat)
    requires 1 <= |entry.events| <= MAXIMUM_EVENTS_PER_COMMAND
    requires entry.command.sessionId == w.initial.sessionId && w.validId(entry.command.commandId)
    requires forall i :: 0 <= i < |entry.events| ==>
               entry.events[i].header
               == Header(w.initial.sessionId, w.id, entry.command.commandId, start + 1 + i, i, |entry.events|)
    ensures GoodEntry(w, entry, start)
  {
  }

  // Groups of one to three: the number of events lies between once and three times the number of commands.
  lemma {:induction false} EventCountIsBounded(w: Workflow, journal: seq<Entry>)
    requires GoodJournal(w, journal)
    ensures |journal| <= |AllEvents(journal)| <= MAXIMUM_EVENTS_PER_COMMAND * |journal|
    decreases |journal|
  {
    hide GoodJournal;
    if journal != [] {
      GoodJournalStep(w, journal);
      EventCountIsBounded(w, journal[..|journal| - 1]);
    }
  }
}

/** How a workflow journal is laid out in the database, and how it is read back, regrouped and replayed. */
module WorkflowRestore {
  import opened Sorting
  import opened SessionStorage
  import opened WorkflowReplay

  datatype Codec = Codec(
    encodeCommand: Command -> Option<Bytes>,
    decodeCommand: Bytes -> Option<Command>,
    encodeEvent: Event -> Option<Bytes>,
    decodeEvent: Bytes -> Option<Event>,
    validUtc: string -> bool,
    validText: string -> bool)

  // Decoding inverts encoding, and every identifier the engine takes is valid text.
  ghost predicate Lawful(w: Workflow, codec: Codec) {
    && (forall c :: codec.encodeCommand(c).Some? ==> codec.decodeCommand(codec.encodeCommand(c).value) == Some(c))
    && (forall e :: codec.encodeEvent(e).Some? ==> codec.decodeEvent(codec.encodeEvent(e).value) == Some(e))
    && (forall id :: w.validId(id) ==> codec.validText(id))
  }

  // What a session is bound to when it is opened.
  datatype Binding = Binding(engineRevision: string, pins: seq<RevisionPin>, contract: AuthorityContract)

  ghost predicate BoundTo(w: Workflow, codec: Codec, b: Binding, snapshot: Snapshot) {
    && snapshot.authorityContract == b.contract
    && snapshot.sessionId == w.initial.sessionId
    && snapshot.engineRevision == b.engineRevision && snapshot.pins == b.pins
    && codec.validUtc(snapshot.createdAt)
  }

  // ---- Docket rows and asset references of a journal ----

  function Decimal(n: nat): (digits: string)
    ensures digits != []
  {
    var last := ['0' + (n % 10) as char];
    if n < 10 then last else Decimal(n / 10) + last
  }

  lemma {:induction false} DecimalIsInjective(a: nat, b: nat)
    requires Decimal(a) == Decimal(b)
    ensures a == b
    decreases a
  {
    var x, y := Decimal(a), Decimal(b);
    assert x[|x| - 1] == '0' + (a % 10) as char && y[|y| - 1] == '0' + (b % 10) as char;
    assert a % 10 == b % 10;
    assert (a >= 10 <==> |x| > 1) && (b >= 10 <==> |y| > 1);
    if a >= 10 {
      assert x[..|x| - 1] == Decimal(a / 10) && y[..|y| - 1] == Decimal(b / 10);
      DecimalIsInjective(a / 10, b / 10);
    }
  }

  function EntryName(sequence: nat): string {
    "workflow-event." + Decimal(sequence)
  }

  lemma EntryNamesDiffer(a: nat, b: nat)
    ensures EntryName(a) == EntryName(b) ==> a == b
  {
    if EntryName(a) == EntryName(b) {
      var n := |"workflow-event."|;
      assert EntryName(a)[n..] == Decimal(a) && EntryName(b)[n..] == Decimal(b);
      DecimalIsInjective(a, b);
    }
  }

  function DocketRow(e: Event): DocketEntry {
    DocketEntry(EntryName(e.header.sequence), e.header.sequence, e.title, e.status)
  }

  function DocketOf(events: seq<Event>): seq<DocketEntry> {
    seq(|events|, i requires 0 <= i < |events| => DocketRow(events[i]))
  }

  function DocumentOf(c: Command): seq<AssetReference> {
    match c.document case None => [] case Some(reference) => [reference]
  }

  function Documents(journal: seq<Entry>): seq<AssetReference> {
    if journal == [] then [] else Documents(journal[..|journal| - 1]) + DocumentOf(journal[|journal| - 1].command)
  }

  // Sorted by purpose and digest, each once.
  function ReferencesOf(journal: seq<Entry>): seq<AssetReference> {
    Unique(Sort(Documents(journal), ReferenceLeq))
  }

  lemma {:induction false} ReferencesEnumerateTheDocuments(journal: seq<Entry>)
    ensures Sorted(ReferencesOf(journal), ReferenceLeq) && Distinct(ReferencesOf(journal))
    ensures forall r :: r in ReferencesOf(journal) <==> r in Documents(journal)
  {
    ReferenceOrderIsTotal();
    SortSorts(Documents(journal), ReferenceLeq);
    UniqueOfSorted(Sort(Documents(journal), ReferenceLeq), ReferenceLeq);
  }

  // ---- The layout ----

  predicate CommandRow(codec: Codec, row: StoredCommand, c: Command, start: nat) {
    && row.commandId == c.commandId && row.expectedSequence == start
    && codec.encodeCommand(c) == Some(row.payload) && codec.decodeCommand(row.payload) == Some(c)
    && codec.validUtc(row.recordedAt)
  }

  predicate EventRow(codec: Codec, row: StoredEvent, e: Event, position: nat) {
    && row.sequence == position + 1
    && codec.encodeEvent(e) == Some(row.payload) && codec.decodeEvent(row.payload) == Some(e)
    && row.eventType == e.eventType && row.authorityId == e.authorityId
  }

  predicate CommandRows(codec: Codec, commands: seq<StoredCommand>, journal: seq<Entry>) {
    && |journal| <= |commands|
    && forall k :: 0 <= k < |journal| ==> CommandRow(codec, commands[k], journal[k].command, Start(journal, k))
  }

  predicate EventRows(codec: Codec, rows: seq<StoredEvent>, events: seq<Event>) {
    && |events| <= |rows|
    && forall p :: 0 <= p < |events| ==> EventRow(codec, rows[p], events[p], p)
  }

  // The snapshot is the flattening of this journal: one row per command with the sequence it started at, the events
  // of all commands in one list, a docket row per event, and the documents sorted without repetition.
  ghost predicate LaidOut(w: Workflow, codec: Codec, b: Binding, snapshot: Snapshot, journal: seq<Entry>) {
    && BoundTo(w, codec, b, snapshot)
    && |snapshot.commands| == |journal| && CommandRows(codec, snapshot.commands, journal)
    && snapshot.sequence == |snapshot.events| == |AllEvents(journal)|
    && EventRows(codec, snapshot.events, AllEvents(journal))
    && snapshot.docket == DocketOf(AllEvents(journal))
    && snapshot.assetReferences == ReferencesOf(journal)
  }

  ghost predicate Restorable(w: Workflow, codec: Codec, b: Binding, snapshot: Snapshot, objects: set<string>,
                             journal: seq<Entry>)
  {
    && LaidOut(w, codec, b, snapshot, journal)
    && Replayed(w, journal).Some?
    && forall r :: r in snapshot.assetReferences ==> r.digest in objects
  }

  // ---- Reading rows back ----

  function ReadCommand(w: Workflow, codec: Codec, row: StoredCommand): Option<Command> {
    match codec.decodeCommand(row.payload)
    case None => None
    case Some(c) =>
      if codec.encodeCommand(c) == Some(row.payload) && c.sessionId == w.initial.sessionId
         && c.commandId == row.commandId
      then Some(c) else None
  }

  function ReadEvent(w: Workflow, codec: Codec, row: StoredEvent, header: Header): Option<Event> {
    if row.sequence != header.sequence then None
    else
      match codec.decodeEvent(row.payload)
      case None => None
      case Some(e) =>
        if codec.encodeEvent(e) == Some(row.payload) && e.eventType == row.eventType && e.authorityId == row.authorityId
           && e.header == header then Some(e) else None
  }

  // The first `i` events of the group that starts after `start`.
  function ReadEvents(w: Workflow, codec: Codec, rows: seq<StoredEvent>, commandId: string, start: nat, count: nat,
                      i: nat)
    : (events: Option<seq<Event>>)
    requires i <= count && start + count <= |rows|
    ensures events.Some? ==> |events.value| == i
    decreases i
  {
    if i == 0 then Some([])
    else
      match ReadEvents(w, codec, rows, commandId, start, count, i - 1)
      case None => None
      case Some(earlier) =>
        match ReadEvent(w, codec, rows[start + i - 1],
                        Header(w.initial.sessionId, w.id, commandId, start + i, i - 1, count))
        case None => None
        case Some(e) => Some(earlier + [e])
  }

  // Where the group of a command ends: where the next one starts, or at the end of the log.
  function GroupEnd(snapshot: Snapshot, k: nat): int
    requires k < |snapshot.commands|
  {
    if k + 1 < |snapshot.commands| then snapshot.commands[k + 1].expectedSequence else snapshot.sequence
  }

  predicate GoodGroup(codec: Codec, snapshot: Snapshot, k: nat)
    requires k < |snapshot.commands|
  {
    var row, start, end := snapshot.commands[k], snapshot.commands[k].expectedSequence, GroupEnd(snapshot, k);
    && 0 <= start < end <= snapshot.sequence && end - start <= MAXIMUM_EVENTS_PER_COMMAND
    && codec.validUtc(row.recordedAt) && codec.validText(row.commandId)
  }

  function ReadEntry(w: Workflow, codec: Codec, snapshot: Snapshot, k: nat): Option<Entry>
    requires k < |snapshot.commands| && snapshot.sequence == |snapshot.events|
  {
    if !GoodGroup(codec, snapshot, k) then None
    else
      var row, start := snapshot.commands[k], snapshot.commands[k].expectedSequence;
      var count := GroupEnd(snapshot, k) - start;
      match ReadCommand(w, codec, row)
      case None => None
      case Some(c) =>
        match ReadEvents(w, codec, snapshot.events, c.commandId, start, count, count)
        case None => None
        case Some(events) => Some(Entry(c, events))
  }

  function CommandIds(commands: seq<StoredCommand>): set<string> {
    set c <- commands :: c.commandId
  }

  // The journal of the first `k` commands, if they can be read.
  function ReadJournal(w: Workflow, codec: Codec, snapshot: Snapshot, k: nat): (journal: Option<seq<Entry>>)
    requires k <= |snapshot.commands| && snapshot.sequence == |snapshot.events|
    ensures journal.Some? ==> |journal.value| == k
    decreases k
  {
    if k == 0 then Some([])
    else
      match ReadJournal(w, codec, snapshot, k - 1)
      case None => None
      case Some(earlier) =>
        if snapshot.commands[k - 1].commandId in CommandIds(snapshot.commands[..k - 1]) then None
        else
          match ReadEntry(w, codec, snapshot, k - 1)
          case None => None
          case Some(entry) => Some(earlier + [entry])
  }

  // ---- What is read is what was laid out ----

  lemma {:induction false} ReadEventsAreRows(w: Workflow, codec: Codec, rows: seq<StoredEvent>, commandId: string,
                                             start: nat, count: nat, i: nat)
    requires i <= count && start + count <= |rows| && ReadEvents(w, codec, rows, commandId, start, count, i).Some?
    ensures forall j :: 0 <= j < i ==>
              EventRow(codec, rows[start + j], ReadEvents(w, codec, rows, commandId, start, count, i).value[j],
                       start + j)
    decreases i
  {
    if i > 0 {
      ReadEventsAreRows(w, codec, rows, commandId, start, count, i - 1);
    }
  }

  lemma EventRowsExtend(codec: Codec, rows: seq<StoredEvent>, events: seq<Event>, more: seq<Event>)
    requires EventRows(codec, rows, events) && |events| + |more| <= |rows|
    requires forall j :: 0 <= j < |more| ==> EventRow(codec, rows[|events| + j], more[j], |events| + j)
    ensures EventRows(codec, rows, events + more)
  {
    hide EventRow;
    forall p | 0 <= p < |events| + |more| ensures EventRow(codec, rows[p], (events + more)[p], p) {
      if p >= |events| {
        var j := p - |events|;
        assert EventRow(codec, rows[|events| + j], more[j], |events| + j);
      }
    }
  }

  lemma CommandRowsStep(codec: Codec, commands: seq<StoredCommand>, journal: seq<Entry>)
    requires journal != [] && |journal| <= |commands|
    ensures var n := |journal| - 1;
            CommandRows(codec, commands, journal) <==>
            && CommandRows(codec, commands, journal[..n])
            && CommandRow(codec, commands[n], journal[n].command, |AllEvents(journal[..n])|)
  {
    hide CommandRow, AllEvents;
    var n := |journal| - 1;
    forall k | 0 <= k < n ensures Start(journal[..n], k) == Start(journal, k) {
      assert journal[..n][..k] == journal[..k];
    }
    if CommandRows(codec, commands, journal[..n]) {
      forall k | 0 <= k < n ensures CommandRow(codec, commands[k], journal[k].command, Start(journal, k)) {
        assert journal[..n][k] == journal[k];
      }
    }
    if CommandRows(codec, commands, journal) {
      forall k | 0 <= k < n ensures CommandRow(codec, commands[k], journal[..n][k].command, Start(journal[..n], k)) {
        assert CommandRow(codec, commands[k], journal[k].command, Start(journal, k));
      }
    }
  }

  // The groups partition the log: each starts where the ones before it end.
  function Boundary(snapshot: Snapshot, k: nat): int
    requires k <= |snapshot.commands|
  {
    if k < |snapshot.commands| then snapshot.commands[k].expectedSequence else snapshot.sequence
  }

  lemma ReadEntryIsRows(w: Workflow, codec: Codec, snapshot: Snapshot, k: nat)
    requires k < |snapshot.commands| && snapshot.sequence == |snapshot.events| && ReadEntry(w, codec, snapshot, k).Some?
    ensures var entry, start := ReadEntry(w, codec, snapshot, k).value, Boundary(snapshot, k);
            && 0 <= start && Boundary(snapshot, k + 1) == start + |entry.events| <= |snapshot.events|
            && CommandRow(codec, snapshot.commands[k], entry.command, start)
            && forall j :: 0 <= j < |entry.events| ==>
                 EventRow(codec, snapshot.events[start + j], entry.events[j], start + j)
  {
    hide EventRow;
    var entry, start := ReadEntry(w, codec, snapshot, k).value, snapshot.commands[k].expectedSequence;
    var count := |entry.events|;
    ReadEventsAreRows(w, codec, snapshot.events, entry.command.commandId, start, count, count);
  }

  lemma {:induction false} ReadJournalIsLaidOut(w: Workflow, codec: Codec, snapshot: Snapshot, k: nat)
    requires k <= |snapshot.commands| && snapshot.sequence == |snapshot.events|
    requires snapshot.commands != [] && snapshot.commands[0].expectedSequence == 0
    requires ReadJournal(w, codec, snapshot, k).Some?
    ensures var journal := ReadJournal(w, codec, snapshot, k).value;
            && |AllEvents(journal)| == Boundary(snapshot, k)
            && CommandRows(codec, snapshot.commands, journal) && EventRows(codec, snapshot.events, AllEvents(journal))
    decreases k
  {
    hide CommandRows, EventRows, EventRow, ReadEntry, CommandRow, CommandIds;
    if k == 0 {
      NothingIsLaidOut(codec, snapshot);
    } else {
      ReadJournalIsLaidOut(w, codec, snapshot, k - 1);
      var journal := ReadJournal(w, codec, snapshot, k).value;
      assert journal[..k - 1] == ReadJournal(w, codec, snapshot, k - 1).value;
      ReadEntryIsRows(w, codec, snapshot, k - 1);
      EventRowsExtend(codec, snapshot.events, AllEvents(journal[..k - 1]), journal[k - 1].events);
      CommandRowsStep(codec, snapshot.commands, journal);
    }
  }

  lemma NothingIsLaidOut(codec: Codec, snapshot: Snapshot)
    ensures CommandRows(codec, snapshot.commands, []) && EventRows(codec, snapshot.events, [])
  {
  }

  // ---- What was laid out is read ----

  lemma {:induction false} EventsOfEntry(journal: seq<Entry>, k: nat)
    requires k < |journal|
    ensures Start(journal, k + 1) == Start(journal, k) + |journal[k].events| <= |AllEvents(journal)|
    ensures forall i :: 0 <= i < |journal[k].events| ==>
              AllEvents(journal)[Start(journal, k) + i] == journal[k].events[i]
    decreases |journal|
  {
    var n := |journal| - 1;
    if k < n {
      EventsOfEntry(journal[..n], k);
      assert journal[..n][..k] == journal[..k] && journal[..n][..k + 1] == journal[..k + 1];
    } else {
      assert journal[..k + 1] == journal;
    }
  }

  lemma {:induction false} EventsAreRead(w: Workflow, codec: Codec, rows: seq<StoredEvent>, entry: Entry, start: nat,
                                         i: nat)
    requires i <= |entry.events| && start + |entry.events| <= |rows| && GoodEntry(w, entry, start)
    requires forall j :: 0 <= j < |entry.events| ==> EventRow(codec, rows[start + j], entry.events[j], start + j)
    ensures ReadEvents(w, codec, rows, entry.command.commandId, start, |entry.events|, i) == Some(entry.events[..i])
    decreases i
  {
    if i > 0 {
      EventsAreRead(w, codec, rows, entry, start, i - 1);
      assert GoodHeader(w, entry, start, i - 1);
      assert EventRow(codec, rows[start + (i - 1)], entry.events[i - 1], start + (i - 1));
      assert entry.events[..i] == entry.events[..i - 1] + [entry.events[i - 1]];
    }
  }

  lemma BoundaryIsStart(w: Workflow, codec: Codec, b: Binding, snapshot: Snapshot, journal: seq<Entry>, k: nat)
    requires LaidOut(w, codec, b, snapshot, journal) && k <= |journal|
    ensures Boundary(snapshot, k) == Start(journal, k)
  {
    hide AllEvents, EventRows, BoundTo, ReferencesOf, DocketOf;
    if k < |journal| {
      assert CommandRow(codec, snapshot.commands[k], journal[k].command, Start(journal, k));
    } else {
      assert journal[..k] == journal;
    }
  }

  lemma EntryIsRead(w: Workflow, codec: Codec, b: Binding, snapshot: Snapshot, journal: seq<Entry>, k: nat)
    requires Lawful(w, codec) && LaidOut(w, codec, b, snapshot, journal) && GoodEntries(w, journal) && k < |journal|
    ensures ReadEntry(w, codec, snapshot, k) == Some(journal[k])
  {
    hide AllEvents, BoundTo, ReferencesOf, DocketOf, GoodEntry;
    var entry, start := journal[k], Start(journal, k);
    assert CommandRow(codec, snapshot.commands[k], entry.command, start);
    BoundaryIsStart(w, codec, b, snapshot, journal, k);
    BoundaryIsStart(w, codec, b, snapshot, journal, k + 1);
    EventsOfEntry(journal, k);
    assert GoodEntry(w, entry, start);
    EntrySize(w, entry, start);
    forall j | 0 <= j < |entry.events| ensures EventRow(codec, snapshot.events[start + j], entry.events[j], start + j) {
      assert EventRow(codec, snapshot.events[start + j], AllEvents(journal)[start + j], start + j);
    }
    EventsAreRead(w, codec, snapshot.events, entry, start, |entry.events|);
    assert entry.events[..|entry.events|] == entry.events;
  }

  lemma EntrySize(w: Workflow, entry: Entry, start: nat)
    requires GoodEntry(w, entry, start)
    ensures 1 <= |entry.events| <= MAXIMUM_EVENTS_PER_COMMAND
    ensures entry.command.sessionId == w.initial.sessionId && w.validId(entry.command.commandId)
  {
  }

  lemma {:induction false} JournalIsRead(w: Workflow, codec: Codec, b: Binding, snapshot: Snapshot, journal: seq<Entry>,
                                         k: nat)
    requires Lawful(w, codec) && LaidOut(w, codec, b, snapshot, journal) && GoodJournal(w, journal) && k <= |journal|
    ensures ReadJournal(w, codec, snapshot, k) == Some(journal[..k])
    decreases k
  {
    hide GoodEntries, ReadEntry, AllEvents, BoundTo, ReferencesOf, DocketOf, EventRows;
    if k > 0 {
      JournalIsRead(w, codec, b, snapshot, journal, k - 1);
      EntryIsRead(w, codec, b, snapshot, journal, k - 1);
      assert journal[..k] == journal[..k - 1] + [journal[k - 1]];
      forall j | 0 <= j < k - 1 ensures snapshot.commands[j].commandId != snapshot.commands[k - 1].commandId {
        assert CommandRow(codec, snapshot.commands[j], journal[j].command, Start(journal, j));
        assert CommandRow(codec, snapshot.commands[k - 1], journal[k - 1].command, Start(journal, k - 1));
      }
    }
  }

  // ---- Restoring ----

  // The bounds checked before any row is read.
  ghost predicate Bounds(snapshot: Snapshot) {
    && 0 <= snapshot.sequence <= MAXIMUM_JOURNAL_ENTRIES * MAXIMUM_EVENTS_PER_COMMAND
    && |snapshot.commands| <= MAXIMUM_JOURNAL_ENTRIES
    && |snapshot.events| <= MAXIMUM_JOURNAL_ENTRIES * MAXIMUM_EVENTS_PER_COMMAND
    && snapshot.sequence == |snapshot.events|
    && (snapshot.commands == [] ==> snapshot.events == [] && snapshot.docket == [] && snapshot.assetReferences == [])
    && (snapshot.commands != [] ==> snapshot.commands[0].expectedSequence == 0)
  }

  lemma {:induction false} RestorableIsRead(w: Workflow, codec: Codec, b: Binding, snapshot: Snapshot,
                                            objects: set<string>, journal: seq<Entry>)
    requires Ready(w) && Lawful(w, codec) && Restorable(w, codec, b, snapshot, objects, journal)
    ensures BoundTo(w, codec, b, snapshot) && Bounds(snapshot)
    ensures ReadJournal(w, codec, snapshot, |snapshot.commands|) == Some(journal)
  {
    hide GoodJournal, CommandRows, EventRows, BoundTo, Lawful, Ready, ReadJournal, ReplayEntries;
    ReplayedJournalShape(w, journal);
    EventCountIsBounded(w, journal);
    JournalIsRead(w, codec, b, snapshot, journal, |journal|);
    assert journal[..|journal|] == journal;
    if journal != [] {
      BoundaryIsStart(w, codec, b, snapshot, journal, 0);
      assert journal[..0] == [];
    } else {
      assert DocketOf([]) == [];
    }
  }

  lemma ReadIsRestorable(w: Workflow, codec: Codec, b: Binding, snapshot: Snapshot, objects: set<string>,
                         journal: seq<Entry>)
    requires Ready(w) && BoundTo(w, codec, b, snapshot) && Bounds(snapshot)
    requires ReadJournal(w, codec, snapshot, |snapshot.commands|) == Some(journal)
    requires snapshot.docket == DocketOf(AllEvents(journal)) && snapshot.assetReferences == ReferencesOf(journal)
    requires forall r :: r in snapshot.assetReferences ==> r.digest in objects
    requires Replayed(w, journal).Some?
    ensures Restorable(w, codec, b, snapshot, objects, journal)
  {
    hide CommandRows, EventRows, BoundTo;
    if snapshot.commands == [] {
      NothingIsLaidOut(codec, snapshot);
    } else {
      ReadJournalIsLaidOut(w, codec, snapshot, |snapshot.commands|);
    }
  }

  // At most one journal can be restored from a snapshot.
  lemma {:induction false} OnlyOneJournal(w: Workflow, codec: Codec, b: Binding, snapshot: Snapshot,
                                          objects: set<string>, x: seq<Entry>, y: seq<Entry>)
    requires Ready(w) && Lawful(w, codec)
    requires Restorable(w, codec, b, snapshot, objects, x) && Restorable(w, codec, b, snapshot, objects, y)
    ensures x == y
  {
    RestorableIsRead(w, codec, b, snapshot, objects, x);
    RestorableIsRead(w, codec, b, snapshot, objects, y);
  }

  method ReadGroup(w: Workflow, codec: Codec, rows: seq<StoredEvent>, commandId: string, start: nat, count: nat,
                   docket: seq<DocketEntry>)
    returns (events: Option<seq<Event>>, extended: seq<DocketEntry>)
    requires start + count <= |rows|
    ensures events == ReadEvents(w, codec, rows, commandId, start, count, count)
    ensures events.Some? ==> extended == docket + DocketOf(events.value)
  {
    hide DocketRow;
    var group: seq<Event> := [];
    extended := docket;
    for i := 0 to count
      invariant ReadEvents(w, codec, rows, commandId, start, count, i) == Some(group)
      invariant extended == docket + DocketOf(group)
    {
      var e := ReadEvent(w, codec, rows[start + i],
                         Header(w.initial.sessionId, w.id, commandId, start + i + 1, i, count));
      if e.None? {
        ReadStops(w, codec, rows, commandId, start, count, i + 1);
        return None, extended;
      }
      assert DocketOf(group + [e.value]) == DocketOf(group) + [DocketRow(e.value)];
      extended := extended + [DocketRow(e.value)];
      group := group + [e.value];
    }
    events := Some(group);
  }

  lemma {:induction false} ReadStops(w: Workflow, codec: Codec, rows: seq<StoredEvent>, commandId: string, start: nat,
                                     count: nat, i: nat)
    requires i <= count && start + count <= |rows| && ReadEvents(w, codec, rows, commandId, start, count, i).None?
    ensures ReadEvents(w, codec, rows, commandId, start, count, count).None?
    decreases count - i
  {
    if i < count {
      assert ReadEvents(w, codec, rows, commandId, start, count, i + 1).None?;
      ReadStops(w, codec, rows, commandId, start, count, i + 1);
    }
  }

  lemma {:induction false} JournalStops(w: Workflow, codec: Codec, snapshot: Snapshot, k: nat)
    requires k <= |snapshot.commands| && snapshot.sequence == |snapshot.events|
             && ReadJournal(w, codec, snapshot, k).None?
    ensures ReadJournal(w, codec, snapshot, |snapshot.commands|).None?
    decreases |snapshot.commands| - k
  {
    if k < |snapshot.commands| {
      assert ReadJournal(w, codec, snapshot, k + 1).None?;
      JournalStops(w, codec, snapshot, k + 1);
    }
  }

  // Reads every command and its group, and derives the docket and the documents on the way.
  method ReadAll(w: Workflow, codec: Codec, snapshot: Snapshot)
    returns (journal: Option<seq<Entry>>, docket: seq<DocketEntry>, references: seq<AssetReference>)
    requires snapshot.sequence == |snapshot.events|
    ensures journal == ReadJournal(w, codec, snapshot, |snapshot.commands|)
    ensures journal.Some? ==> docket == DocketOf(AllEvents(journal.value)) && references == Documents(journal.value)
  {
    hide GoodGroup, ReadEntry, DocketOf, ReadJournal, AllEvents, Documents;
    var entries: seq<Entry> := [];
    var ids: set<string> := {};
    docket, references := [], [];
    NothingIsRead(w, codec, snapshot);
    for k := 0 to |snapshot.commands|
      invariant ReadJournal(w, codec, snapshot, k) == Some(entries)
      invariant ids == CommandIds(snapshot.commands[..k])
      invariant docket == DocketOf(AllEvents(entries)) && references == Documents(entries)
    {
      var row := snapshot.commands[k];
      assert snapshot.commands[..k + 1] == snapshot.commands[..k] + [row];
      ReadStep(w, codec, snapshot, k, entries);
      if row.commandId in ids || !GoodGroup(codec, snapshot, k) {
        BadGroupIsNotRead(w, codec, snapshot, k);
        JournalStops(w, codec, snapshot, k + 1);
        return None, docket, references;
      }
      ids := ids + {row.commandId};
      var entry, grown := ReadOne(w, codec, snapshot, k, docket);
      if entry.None? {
        JournalStops(w, codec, snapshot, k + 1);
        return None, docket, references;
      }
      JournalGrows(entries, entry.value);
      docket := grown;
      if entry.value.command.document.Some? {
        references := references + [entry.value.command.document.value];
      }
      entries := entries + [entry.value];
    }
    journal := Some(entries);
  }

  lemma NothingIsRead(w: Workflow, codec: Codec, snapshot: Snapshot)
    requires snapshot.sequence == |snapshot.events|
    ensures ReadJournal(w, codec, snapshot, 0) == Some([])
    ensures DocketOf(AllEvents([])) == [] && Documents([]) == []
  {
  }

  lemma ReadStep(w: Workflow, codec: Codec, snapshot: Snapshot, k: nat, entries: seq<Entry>)
    requires k < |snapshot.commands| && snapshot.sequence == |snapshot.events|
    requires ReadJournal(w, codec, snapshot, k) == Some(entries)
    ensures ReadJournal(w, codec, snapshot, k + 1) ==
            if snapshot.commands[k].commandId in CommandIds(snapshot.commands[..k]) then None
            else match ReadEntry(w, codec, snapshot, k) case None => None case Some(entry) => Some(entries + [entry])
  {
    hide ReadEntry, CommandIds;
  }

  lemma BadGroupIsNotRead(w: Workflow, codec: Codec, snapshot: Snapshot, k: nat)
    requires k < |snapshot.commands| && snapshot.sequence == |snapshot.events|
    ensures !GoodGroup(codec, snapshot, k) ==> ReadEntry(w, codec, snapshot, k).None?
  {
  }

  lemma JournalGrows(entries: seq<Entry>, entry: Entry)
    ensures AllEvents(entries + [entry]) == AllEvents(entries) + entry.events
    ensures Documents(entries + [entry]) == Documents(entries) + DocumentOf(entry.command)
    ensures DocketOf(AllEvents(entries + [entry])) == DocketOf(AllEvents(entries)) + DocketOf(entry.events)
  {
    hide DocketRow;
    assert (entries + [entry])[..|entries|] == entries;
    var events, more := AllEvents(entries), entry.events;
    assert DocketOf(events + more) == DocketOf(events) + DocketOf(more);
  }

  method ReadOne(w: Workflow, codec: Codec, snapshot: Snapshot, k: nat, docket: seq<DocketEntry>)
    returns (entry: Option<Entry>, extended: seq<DocketEntry>)
    requires k < |snapshot.commands| && snapshot.sequence == |snapshot.events| && GoodGroup(codec, snapshot, k)
    ensures entry == ReadEntry(w, codec, snapshot, k)
    ensures entry.Some? ==> extended == docket + DocketOf(entry.value.events)
  {
    var row, start := snapshot.commands[k], snapshot.commands[k].expectedSequence;
    var command := ReadCommand(w, codec, row);
    if command.None? {
      return None, docket;
    }
    var events;
    events, extended := ReadGroup(w, codec, snapshot.events, command.value.commandId, start,
                                  GroupEnd(snapshot, k) - start,
                                  docket);
    entry := if events.None? then None else Some(Entry(command.value, events.value));
  }

  datatype Restored = Restored(state: State, journal: seq<Entry>)

  // Succeeds exactly on a snapshot that is the flattening of a journal that replays and whose documents can be read,
  // and then yields that journal and the state it leads to.
  method RestoreSnapshot(w: Workflow, codec: Codec, b: Binding, snapshot: Snapshot, objects: set<string>)
    returns (r: Option<Restored>)
    requires Ready(w) && Lawful(w, codec)
    ensures r.Some? <==> exists journal :: Restorable(w, codec, b, snapshot, objects, journal)
    ensures r.Some? ==> Restorable(w, codec, b, snapshot, objects, r.value.journal)
    ensures r.Some? ==> Replayed(w, r.value.journal) == Some(r.value.state)
    ensures r.Some? ==> r.value.state.nextSequence == snapshot.sequence + 1
  {
    hide Lawful, Ready, ReadJournal, Replayed, Restorable, DocketOf, ReferencesOf, AllEvents, Documents;
    forall journal | Restorable(w, codec, b, snapshot, objects, journal)
      ensures BoundTo(w, codec, b, snapshot) && Bounds(snapshot)
      ensures ReadJournal(w, codec, snapshot, |snapshot.commands|) == Some(journal)
      ensures snapshot.docket == DocketOf(AllEvents(journal)) && snapshot.assetReferences == ReferencesOf(journal)
      ensures (forall r :: r in snapshot.assetReferences ==> r.digest in objects) && Replayed(w, journal).Some?
    {
      RestorableIsRead(w, codec, b, snapshot, objects, journal);
      RestorableParts(w, codec, b, snapshot, objects, journal);
    }
    if snapshot.authorityContract != b.contract || snapshot.sessionId != w.initial.sessionId
       || snapshot.engineRevision != b.engineRevision || snapshot.pins != b.pins || !codec.validUtc(snapshot.createdAt)
    {
      return None;
    }
    if snapshot.sequence < 0 || snapshot.sequence > MAXIMUM_JOURNAL_ENTRIES * MAXIMUM_EVENTS_PER_COMMAND
       || |snapshot.commands| > MAXIMUM_JOURNAL_ENTRIES
       || |snapshot.events| > MAXIMUM_JOURNAL_ENTRIES * MAXIMUM_EVENTS_PER_COMMAND
       || snapshot.sequence != |snapshot.events| {
      return None;
    }
    if snapshot.commands == [] && (snapshot.events != [] || snapshot.docket != [] || snapshot.assetReferences != []) {
      return None;
    }
    if snapshot.commands != [] && snapshot.commands[0].expectedSequence != 0 {
      return None;
    }
    assert BoundTo(w, codec, b, snapshot) && Bounds(snapshot);
    hide BoundTo;
    if snapshot.commands == [] {
      EmptyIsRestorable(w, codec, b, snapshot, objects);
      return Some(Restored(w.initial, []));
    }
    var journal, docket, references := ReadAll(w, codec, snapshot);
    if journal.None? {
      return None;
    }
    references := Unique(Sort(references, ReferenceLeq));
    ReferencesAre(journal.value, references);
    if snapshot.docket != docket || snapshot.assetReferences != references {
      return None;
    }
    if !(forall r :: r in references ==> r.digest in objects) {
      return None;
    }
    var replayed := Replay(w, journal.value);
    if replayed.None? {
      return None;
    }
    ReadIsRestorable(w, codec, b, snapshot, objects, journal.value);
    StateCountsEvents(w, codec, b, snapshot, objects, journal.value);
    if replayed.value.nextSequence != snapshot.sequence + 1 {
      assert false;
      return None;
    }
    return Some(Restored(replayed.value, journal.value));
  }

  lemma ReferencesAre(journal: seq<Entry>, references: seq<AssetReference>)
    requires references == Unique(Sort(Documents(journal), ReferenceLeq))
    ensures references == ReferencesOf(journal)
  {
  }

  lemma RestorableParts(w: Workflow, codec: Codec, b: Binding, snapshot: Snapshot, objects: set<string>,
                        journal: seq<Entry>)
    requires Restorable(w, codec, b, snapshot, objects, journal)
    ensures snapshot.docket == DocketOf(AllEvents(journal)) && snapshot.assetReferences == ReferencesOf(journal)
    ensures (forall r :: r in snapshot.assetReferences ==> r.digest in objects) && Replayed(w, journal).Some?
  {
  }

  lemma EmptyIsRestorable(w: Workflow, codec: Codec, b: Binding, snapshot: Snapshot, objects: set<string>)
    requires Ready(w) && BoundTo(w, codec, b, snapshot) && Bounds(snapshot) && snapshot.commands == []
    ensures Restorable(w, codec, b, snapshot, objects, []) && Replayed(w, []) == Some(w.initial)
    ensures w.initial.nextSequence == snapshot.sequence + 1
  {
    assert DocketOf([]) == [] && ReferencesOf([]) == [];
    NothingIsLaidOut(codec, snapshot);
  }

  // The check after the replay never fires.
  lemma {:induction false} StateCountsEvents(w: Workflow, codec: Codec, b: Binding, snapshot: Snapshot,
                                             objects: set<string>, journal: seq<Entry>)
    requires Ready(w) && Restorable(w, codec, b, snapshot, objects, journal)
    ensures Replayed(w, journal).value.nextSequence == snapshot.sequence + 1
  {
    hide GoodJournal, Ready, BoundTo, CommandRows, EventRows;
    ReplayedJournalShape(w, journal);
  }
}

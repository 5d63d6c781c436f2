/** The controller of a workflow session: it decides commands, replays the longer journal, commits it, and
    restores what it committed. */
module WorkflowSessions {
  import opened Sorting
  import opened SessionStorage
  import opened WorkflowReplay
  import opened WorkflowRestore

  // ---- Any journal, flattened, restores to itself ----

  predicate EncodableEvents(codec: Codec, events: seq<Event>) {
    forall i :: 0 <= i < |events| ==> codec.encodeEvent(events[i]).Some?
  }

  predicate Encodable(codec: Codec, journal: seq<Entry>) {
    && (forall k :: 0 <= k < |journal| ==> codec.encodeCommand(journal[k].command).Some?)
    && EncodableEvents(codec, AllEvents(journal))
  }

  function Flattened(w: Workflow, codec: Codec, b: Binding, journal: seq<Entry>, times: seq<string>,
                     createdAt: string): Snapshot
    requires Encodable(codec, journal) && |times| == |journal|
  {
    var all := AllEvents(journal);
    Snapshot(w.initial.sessionId, b.engineRevision, b.contract, |all|, b.pins,
             seq(|journal|, k requires 0 <= k < |journal| =>
               StoredCommand(journal[k].command.commandId, Start(journal, k),
                             codec.encodeCommand(journal[k].command).value,
                             times[k])),
             seq(|all|, p requires 0 <= p < |all| =>
               StoredEvent(p + 1, all[p].eventType, codec.encodeEvent(all[p]).value, all[p].authorityId)),
             DocketOf(all), ReferencesOf(journal), createdAt)
  }

  // Every journal that replays, flattened, is the one journal its snapshot restores to.
  lemma {:induction false} FlattenedRestoresToItself(w: Workflow, codec: Codec, b: Binding, journal: seq<Entry>,
                                                     times: seq<string>, createdAt: string, objects: set<string>)
    requires Ready(w) && Lawful(w, codec) && Encodable(codec, journal) && |times| == |journal|
    requires Replayed(w, journal).Some? && codec.validUtc(createdAt)
    requires forall k :: 0 <= k < |times| ==> codec.validUtc(times[k])
    requires forall r :: r in Documents(journal) ==> r.digest in objects
    ensures var snapshot := Flattened(w, codec, b, journal, times, createdAt);
            && Restorable(w, codec, b, snapshot, objects, journal)
            && forall other :: Restorable(w, codec, b, snapshot, objects, other) ==> other == journal
  {
    hide Ready, DocketOf, ReferencesOf, Replayed;
    var snapshot := Flattened(w, codec, b, journal, times, createdAt);
    ReferencesEnumerateTheDocuments(journal);
    assert Restorable(w, codec, b, snapshot, objects, journal);
    forall other | Restorable(w, codec, b, snapshot, objects, other) ensures other == journal {
      OnlyOneJournal(w, codec, b, snapshot, objects, other, journal);
    }
  }

  // ---- One commit ----

  function DocketWriteOf(e: Event, offset: nat): DocketWrite {
    DocketWrite(EntryName(e.header.sequence), offset, e.title, e.status)
  }

  function EventWriteOf(codec: Codec, e: Event): EventWrite
    requires codec.encodeEvent(e).Some?
  {
    EventWrite(e.eventType, codec.encodeEvent(e).value, e.authorityId)
  }

  function EventWrites(codec: Codec, events: seq<Event>): (writes: seq<EventWrite>)
    requires EncodableEvents(codec, events)
    ensures |writes| == |events|
  {
    seq(|events|, i requires 0 <= i < |events| => EventWriteOf(codec, events[i]))
  }

  function DocketWrites(events: seq<Event>): (writes: seq<DocketWrite>)
    ensures |writes| == |events|
  {
    seq(|events|, i requires 0 <= i < |events| => DocketWriteOf(events[i], i))
  }

  function BatchFor(codec: Codec, entry: Entry, recordedAt: string, added: seq<AssetReference>): CommitBatch
    requires codec.encodeCommand(entry.command).Some? && EncodableEvents(codec, entry.events)
  {
    CommitBatch(entry.command.commandId, codec.encodeCommand(entry.command).value, recordedAt,
                EventWrites(codec, entry.events), DocketWrites(entry.events), added)
  }

  predicate Numbered(events: seq<Event>) {
    forall p :: 0 <= p < |events| ==> events[p].header.sequence == p + 1
  }

  lemma {:induction false} GoodJournalIsNumbered(w: Workflow, journal: seq<Entry>)
    requires GoodJournal(w, journal)
    ensures Numbered(AllEvents(journal))
    decreases |journal|
  {
    hide GoodJournal;
    if journal != [] {
      var n := |journal| - 1;
      GoodJournalStep(w, journal);
      GoodJournalIsNumbered(w, journal[..n]);
      forall i | 0 <= i < |journal[n].events|
        ensures journal[n].events[i].header.sequence == |AllEvents(journal[..n])| + i + 1
      {
        assert GoodHeader(w, journal[n], |AllEvents(journal[..n])|, i);
      }
    }
  }

  lemma {:induction false} DocketRowsAreAdded(earlier: seq<Event>, events: seq<Event>, i: nat)
    requires Numbered(earlier + events) && i <= |events|
    ensures UpsertAll(DocketOf(earlier), |earlier|, DocketWrites(events)[..i]) ==
            DocketOf(earlier) + DocketOf(events[..i])
    decreases i
  {
    hide Upsert, EntryName;
    if i == 0 {
      assert DocketOf(events[..0]) == [];
    } else {
      DocketRowsAreAdded(earlier, events, i - 1);
      var before, e := DocketOf(earlier) + DocketOf(events[..i - 1]), events[i - 1];
      assert DocketWrites(events)[..i][..i - 1] == DocketWrites(events)[..i - 1];
      assert (earlier + events)[|earlier| + i - 1] == e;
      forall d | d in before ensures d.eventSequence < e.header.sequence && d.entryId != DocketRow(e).entryId {
        var p :| 0 <= p < |before| && before[p] == d;
        assert d == DocketRow((earlier + events)[p]);
        EntryNamesDiffer(p + 1, e.header.sequence);
      }
      UpsertOfLaterEntry(before, DocketRow(e));
      assert events[..i] == events[..i - 1] + [e];
      assert DocketOf(events[..i]) == DocketOf(events[..i - 1]) + [DocketRow(e)];
    }
  }

  // Inserting the document a command adds keeps the references sorted and without repetition.
  lemma {:induction false} ReferencesAreKept(journal: seq<Entry>, entry: Entry, added: seq<AssetReference>)
    requires added == (match entry.command.document
                       case None => []
                       case Some(r) => if r in ReferencesOf(journal) then [] else [r])
    ensures InsertReferences(ReferencesOf(journal), added) == ReferencesOf(journal + [entry])
  {
    hide ReferencesOf;
    var before, after := ReferencesOf(journal), ReferencesOf(journal + [entry]);
    var grown := InsertReferences(before, added);
    ReferenceOrderIsTotal();
    ReferencesEnumerateTheDocuments(journal);
    ReferencesEnumerateTheDocuments(journal + [entry]);
    JournalGrows(journal, entry);
    InsertReferencesElements(before, added);
    if added != [] {
      assert added[..0] == [] && grown == Insert(added[0], InsertReferences(before, []), ReferenceLeq);
      assert InsertReferences(before, []) == before;
      InsertKeepsOrder(added[0], before, ReferenceLeq);
      InsertKeepsDistinct(added[0], before, ReferenceLeq);
    }
    SortedEnumerationIsUnique(grown, after, ReferenceLeq);
  }

  lemma RowsAreAdded(codec: Codec, snapshot: Snapshot, journal: seq<Entry>, entry: Entry, recordedAt: string,
                     added: seq<AssetReference>)
    requires |snapshot.commands| == |journal| && CommandRows(codec, snapshot.commands, journal)
    requires snapshot.sequence == |snapshot.events| == |AllEvents(journal)|
    requires EventRows(codec, snapshot.events, AllEvents(journal))
    requires codec.encodeCommand(entry.command).Some? && EncodableEvents(codec, entry.events)
             && codec.validUtc(recordedAt)
    requires codec.decodeCommand(codec.encodeCommand(entry.command).value) == Some(entry.command)
    requires forall i :: 0 <= i < |entry.events| ==>
               codec.decodeEvent(codec.encodeEvent(entry.events[i]).value) == Some(entry.events[i])
    ensures var next := Appended(snapshot, BatchFor(codec, entry, recordedAt, added));
            && CommandRows(codec, next.commands, journal + [entry])
            && EventRows(codec, next.events, AllEvents(journal) + entry.events)
  {
    hide UpsertAll, InsertReferences, AllEvents;
    var next := Appended(snapshot, BatchFor(codec, entry, recordedAt, added));
    var longer := journal + [entry];
    forall k | 0 <= k < |longer| ensures CommandRow(codec, next.commands[k], longer[k].command, Start(longer, k)) {
      assert longer[..k] == journal[..k];
      if k < |journal| {
        assert CommandRow(codec, snapshot.commands[k], journal[k].command, Start(journal, k));
      } else {
        assert journal[..k] == journal;
      }
    }
    forall p | 0 <= p < |AllEvents(journal)| ensures EventRow(codec, next.events[p], AllEvents(journal)[p], p) {
      assert EventRow(codec, snapshot.events[p], AllEvents(journal)[p], p);
    }
    EventRowsExtend(codec, next.events, AllEvents(journal), entry.events);
  }

  // What the database holds after a commit is the flattening of the longer journal.
  lemma {:induction false} CommitKeepsLayout(w: Workflow, codec: Codec, b: Binding, snapshot: Snapshot,
                                             objects: set<string>, grown: set<string>, journal: seq<Entry>,
                                             entry: Entry, recordedAt: string, added: seq<AssetReference>)
    requires Ready(w) && Lawful(w, codec) && Restorable(w, codec, b, snapshot, objects, journal)
    requires Replayed(w, journal + [entry]).Some? && codec.validUtc(recordedAt)
    requires codec.encodeCommand(entry.command).Some? && EncodableEvents(codec, entry.events)
    requires added == (match entry.command.document
                       case None => []
                       case Some(r) => if r in snapshot.assetReferences then [] else [r])
    requires objects <= grown && forall r :: r in added ==> r.digest in grown
    ensures Restorable(w, codec, b, Appended(snapshot, BatchFor(codec, entry, recordedAt, added)), grown,
                       journal + [entry])
    ensures forall c :: c in snapshot.commands ==> c.commandId != entry.command.commandId
    ensures entry.events != []
  {
    hide Replayed, DocketOf, ReferencesOf, CommandRows, EventRows, UpsertAll, InsertReferences, GoodEntry, Ready;
    var longer := journal + [entry];
    NewCommandIsNew(w, codec, b, snapshot, objects, journal, entry);
    RowsAreAdded(codec, snapshot, journal, entry, recordedAt, added);
    JournalGrows(journal, entry);
    DocketRowsAreAdded(AllEvents(journal), entry.events, |entry.events|);
    assert entry.events[..|entry.events|] == entry.events;
    assert DocketWrites(entry.events)[..|entry.events|] == DocketWrites(entry.events);
    ReferencesAreKept(journal, entry, added);
    InsertReferencesElements(snapshot.assetReferences, added);
    assert |Appended(snapshot, BatchFor(codec, entry, recordedAt, added)).events| == |AllEvents(longer)|;
  }

  lemma NewCommandIsNew(w: Workflow, codec: Codec, b: Binding, snapshot: Snapshot, objects: set<string>,
                        journal: seq<Entry>, entry: Entry)
    requires Ready(w) && Restorable(w, codec, b, snapshot, objects, journal) && Replayed(w, journal + [entry]).Some?
    ensures forall c :: c in snapshot.commands ==> c.commandId != entry.command.commandId
    ensures Numbered(AllEvents(journal) + entry.events) && entry.events != []
  {
    hide BoundTo, DocketOf, ReferencesOf, EventRows, Ready, GoodEntries, AllEvents, ReplayEntries;
    var longer := journal + [entry];
    ReplayedJournalShape(w, longer);
    GoodJournalIsNumbered(w, longer);
    JournalGrows(journal, entry);
    forall c | c in snapshot.commands ensures c.commandId != entry.command.commandId {
      var k :| 0 <= k < |snapshot.commands| && snapshot.commands[k] == c;
      assert CommandRow(codec, c, journal[k].command, Start(journal, k));
      assert longer[k] == journal[k] && longer[|journal|] == entry;
    }
    LastEntryIsNotEmpty(w, longer);
  }

  lemma LastEntryIsNotEmpty(w: Workflow, journal: seq<Entry>)
    requires GoodEntries(w, journal) && journal != []
    ensures journal[|journal| - 1].events != []
  {
    var n := |journal| - 1;
    assert GoodEntry(w, journal[n], Start(journal, n));
  }

  // ---- The controller ----

  datatype SessionError =
    | InvalidConfiguration
    | UnexpectedDocument
    | AssetStoreFailure
    | DocumentDigestMismatch
    | EngineFailure
    | CommandCodecFailure
    | EventCodecFailure
    | SessionStoreFailure
    | CorruptSession

  datatype Outcome<+T> = Done(value: T) | Failed(error: SessionError)

  class WorkflowSession {
    const w: Workflow
    const codec: Codec
    const sha256: Bytes -> string
    const b: Binding
    const store: SessionStore
    const assets: AssetStore
    var state: State
    var journal: seq<Entry>
    var snapshot: Snapshot
    ghost var held: seq<Entry>  // the journal the database holds

    ghost predicate Valid()
      reads this, store, assets
    {
      && Ready(w) && Lawful(w, codec)
      && Restorable(w, codec, b, store.row, assets.objects, held)
      && journal <= held
      && Replayed(w, journal) == Some(state)
      && snapshot.sequence == |AllEvents(journal)|
      && (journal == held ==> snapshot == store.row)
      && (journal != held ==> |AllEvents(journal)| < |AllEvents(held)|)
    }

    // Memory reflects everything the database holds.
    ghost predicate InSync()
      reads this
    {
      journal == held
    }

    constructor (w: Workflow, codec: Codec, sha256: Bytes -> string, b: Binding, store: SessionStore,
                 assets: AssetStore, restored: Restored)
      requires Ready(w) && Lawful(w, codec)
      requires Restorable(w, codec, b, store.row, assets.objects, restored.journal)
      requires Replayed(w, restored.journal) == Some(restored.state)
      ensures Valid() && InSync() && journal == restored.journal && state == restored.state
      ensures this.w == w && this.codec == codec && this.sha256 == sha256 && this.b == b
      ensures this.store == store && this.assets == assets
    {
      this.w, this.codec, this.sha256, this.b, this.store, this.assets := w, codec, sha256, b, store, assets;
      this.state, this.journal, this.snapshot := restored.state, restored.journal, store.row;
      this.held := restored.journal;
    }

    predicate DocumentFits(command: Command, document: Option<Bytes>) {
      match command.document
      case None => document.None?
      case Some(r) => document.Some? && document.value != [] && sha256(document.value) == r.digest
    }

    // Whether a command can go through at all, before the database is asked.
    predicate Submittable(command: Command, document: Option<Bytes>, recordedAt: string)
      reads this
    {
      && codec.validUtc(recordedAt)
      && DocumentFits(command, document)
      && codec.encodeCommand(command).Some?
      && var decided := Decide(w, state, command);
         decided.Some? && Replayed(w, journal + [Entry(command, decided.value)]).Some?
         && EncodableEvents(codec, decided.value)
    }

    // Either the decided events are committed and memory, database and journal advance together, or memory stays as
    // it was. What is restored after a commit is always what was submitted: a corrupt session is never reported.
    method Submit(command: Command, document: Option<Bytes>, recordedAt: string, fault: StoreFault)
      returns (r: Outcome<seq<Event>>)
      requires Valid()
      modifies this, store, assets
      ensures Valid()
      ensures r.Done? <==> old(Submittable(command, document, recordedAt)) && old(InSync()) && fault == NoFault
      ensures r.Done? ==>
                && InSync() && Decide(w, old(state), command) == Some(r.value)
                && journal == old(journal) + [Entry(command, r.value)]
                && snapshot == store.row
      ensures r.Failed? ==> state == old(state) && journal == old(journal) && snapshot == old(snapshot)
      ensures r.Failed? ==>
                held == old(held)
                || (fault == ReloadFails && old(InSync()) && old(Submittable(command, document, recordedAt))
                    && held == old(held) + [Entry(command, Decide(w, old(state), command).value)])
      ensures r != Failed(CorruptSession)
    {
      hide Decide, Replayed, Restorable, Ready, Lawful, AllEvents;
      if !codec.validUtc(recordedAt) {
        return Failed(InvalidConfiguration);
      }
      if command.document.Some? && (document.None? || document.value == []) {
        return Failed(UnexpectedDocument);
      }
      if command.document.None? && document.Some? {
        return Failed(UnexpectedDocument);
      }
      if codec.encodeCommand(command).None? {
        return Failed(CommandCodecFailure);
      }
      var decided := Decide(w, state, command);
      if decided.None? {
        return Failed(EngineFailure);
      }
      var entry := Entry(command, decided.value);
      var next := Replay(w, journal + [entry]);
      if next.None? {
        return Failed(EngineFailure);
      }
      if !EncodableEvents(codec, decided.value) {
        return Failed(EventCodecFailure);
      }
      if command.document.Some? && sha256(document.value) != command.document.value.digest {
        return Failed(DocumentDigestMismatch);
      }
      r := Commit(entry, recordedAt, fault, next.value);
    }

    // The database transaction, the reload and the restoration after it.
    method Commit(entry: Entry, recordedAt: string, fault: StoreFault, next: State) returns (r: Outcome<seq<Event>>)
      requires Valid()
      requires Replayed(w, journal + [entry]) == Some(next) && codec.validUtc(recordedAt)
      requires codec.encodeCommand(entry.command).Some? && EncodableEvents(codec, entry.events)
      modifies this, store, assets
      ensures Valid()
      ensures r.Done? <==> old(InSync()) && fault == NoFault
      ensures r.Done? ==>
                InSync() && r.value == entry.events && journal == old(journal) + [entry] && snapshot == store.row
      ensures r.Failed? ==> state == old(state) && journal == old(journal) && snapshot == old(snapshot)
      ensures r.Failed? ==> held == old(held) || (fault == ReloadFails && old(InSync()) && held == old(held) + [entry])
      ensures r.Failed? ==> r.error != CorruptSession
    {
      hide Replayed, Restorable, Ready, Lawful, AllEvents, BatchFor, Appended;
      var document := entry.command.document;
      var adds := document.Some? && document.value !in snapshot.assetReferences;
      if document.Some? && !adds && document.value.digest !in assets.objects {
        if InSync() {
          RestorableParts(w, codec, b, store.row, assets.objects, held);
        }
        return Failed(AssetStoreFailure);
      }
      var added := if adds then [document.value] else [];
      var batch := BatchFor(codec, entry, recordedAt, added);
      ghost var grown := assets.objects + (if adds then {document.value.digest} else {});
      if InSync() {
        CommitKeepsLayout(w, codec, b, store.row, assets.objects, grown, held, entry, recordedAt, added);
      }
      r := Store(entry, batch, recordedAt, fault, next, adds, grown);
    }

    lemma StaleIsBehind()
      requires Valid()
      ensures store.row.sequence == |AllEvents(held)|
      ensures !InSync() ==> snapshot.sequence != store.row.sequence
      ensures InSync() ==> snapshot == store.row
    {
      hide Replayed, AllEvents, Ready, Lawful;
    }

    method Store(entry: Entry, batch: CommitBatch, recordedAt: string, fault: StoreFault, next: State, adds: bool,
                 ghost grown: set<string>)
      returns (r: Outcome<seq<Event>>)
      requires Valid()
      requires codec.encodeCommand(entry.command).Some? && EncodableEvents(codec, entry.events)
      requires adds ==> entry.command.document.Some?
      requires batch == BatchFor(codec, entry, recordedAt, if adds then [entry.command.document.value] else [])
      requires adds ==> entry.command.document.value !in snapshot.assetReferences
      requires grown == assets.objects + (if adds then {entry.command.document.value.digest} else {})
      requires Replayed(w, journal + [entry]) == Some(next)
      requires InSync() ==>
                 && Restorable(w, codec, b, Appended(store.row, batch), grown, held + [entry])
                 && (forall c :: c in store.row.commands ==> c.commandId != entry.command.commandId)
                 && entry.events != []
      modifies this, store, assets
      ensures Valid()
      ensures r.Done? <==> old(InSync()) && fault == NoFault
      ensures r.Done? ==>
                InSync() && r.value == entry.events && journal == old(journal) + [entry] && snapshot == store.row
      ensures r.Failed? ==> state == old(state) && journal == old(journal) && snapshot == old(snapshot)
      ensures r.Failed? ==> held == old(held) || (fault == ReloadFails && old(InSync()) && held == old(held) + [entry])
      ensures r.Failed? ==> r.error != CorruptSession
    {
      hide Replayed, Restorable, Ready, Lawful, AllEvents, Appended, BatchFor, MayAppend;
      StaleIsBehind();
      var added := if adds then [entry.command.document.value] else [];
      MayBeAppended(codec, entry, recordedAt, added, store.row, snapshot.sequence);
      var committed := store.Append(snapshot.sequence, batch, fault);
      if !committed {
        return Failed(SessionStoreFailure);
      }
      if adds {
        assets.Publish(entry.command.document.value.digest);
      }
      assert assets.objects == grown;
      held := held + [entry];
      AppendedSequence(w, codec, b, store.row, assets.objects, held);
      JournalGrows(journal, entry);
      if fault == ReloadFails {
        return Failed(SessionStoreFailure);
      }
      Reload(entry, next);
      return Done(entry.events);
    }

    // Restores what was just committed. The checks on what comes back never fire.
    method Reload(entry: Entry, next: State)
      requires Valid() && held == journal + [entry] && Replayed(w, held) == Some(next)
      modifies `state, `journal, `snapshot
      ensures Valid() && InSync() && journal == old(journal) + [entry] && snapshot == store.row
    {
      hide Replayed, Restorable, Ready, Lawful, AllEvents;
      var restored := RestoreSnapshot(w, codec, b, store.row, assets.objects);
      if restored.None? {
        assert false;
        return;
      }
      OnlyOneJournal(w, codec, b, store.row, assets.objects, restored.value.journal, held);
      if restored.value.state != next || restored.value.journal != journal + [entry] {
        assert false;
        return;
      }
      AppendedSequence(w, codec, b, store.row, assets.objects, held);
      state, journal, snapshot := restored.value.state, restored.value.journal, store.row;
    }
  }

  lemma MayBeAppended(codec: Codec, entry: Entry, recordedAt: string, added: seq<AssetReference>, row: Snapshot,
                      expected: int)
    requires codec.encodeCommand(entry.command).Some? && EncodableEvents(codec, entry.events)
    ensures var batch := BatchFor(codec, entry, recordedAt, added);
            && (MayAppend(row, expected, batch) ==> expected == row.sequence)
            && ((expected == row.sequence && entry.events != []
                 && (forall c :: c in row.commands ==> c.commandId != entry.command.commandId)
                 && (forall r :: r in added ==> r !in row.assetReferences))
                ==> MayAppend(row, expected, batch))
  {
    hide EventWriteOf, EntryName;
    assert |EventWrites(codec, entry.events)| == |DocketWrites(entry.events)|;
  }

  lemma AppendedSequence(w: Workflow, codec: Codec, b: Binding, snapshot: Snapshot, objects: set<string>,
                         journal: seq<Entry>)
    requires Restorable(w, codec, b, snapshot, objects, journal)
    ensures snapshot.sequence == |AllEvents(journal)|
  {
    hide AllEvents;
  }

  datatype Submission = Submission(command: Command, document: Option<Bytes>, recordedAt: string, fault: StoreFault)

  // After any run of submissions and store faults the database restores to exactly the journal it took, and to the
  // state and journal in memory unless a reload had failed.
  method ResumeAfterRun(session: WorkflowSession, run: seq<Submission>) returns (r: Option<Restored>)
    requires session.Valid()
    modifies session, session.store, session.assets
    ensures session.Valid()
    ensures r.Some? && r.value.journal == session.held
    ensures session.InSync() ==> r == Some(Restored(session.state, session.journal))
  {
    hide Replayed, Restorable, Ready, Lawful, AllEvents, Decide;
    for i := 0 to |run|
      invariant session.Valid()
    {
      var s := run[i];
      var _ := session.Submit(s.command, s.document, s.recordedAt, s.fault);
    }
    r := RestoreSnapshot(session.w, session.codec, session.b, session.store.row, session.assets.objects);
    OnlyOneJournal(session.w, session.codec, session.b, session.store.row, session.assets.objects, r.value.journal,
                   session.held);
  }
}

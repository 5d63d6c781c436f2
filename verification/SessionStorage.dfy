/** The session database and the content-addressed asset store, as the controllers see them. */
module SessionStorage {
  import opened Sorting

  type Bytes = seq<int>

  datatype AuthorityContract = LegacyV1 | CanonicalV2

  datatype RevisionPin = RevisionPin(packId: string, version: string, digest: string)

  datatype EventWrite = EventWrite(eventType: string, payload: Bytes, authorityId: string)

  datatype DocketWrite = DocketWrite(entryId: string, sourceEventOffset: nat, title: string, status: string)

  datatype AssetReference = AssetReference(digest: string, purpose: string)

  datatype CommitBatch = CommitBatch(
    commandId: string,
    command: Bytes,
    recordedAt: string,
    events: seq<EventWrite>,
    docketChanges: seq<DocketWrite>,
    assetReferences: seq<AssetReference>)

  datatype StoredEvent = StoredEvent(sequence: int, eventType: string, payload: Bytes, authorityId: string)

  datatype StoredCommand = StoredCommand(commandId: string, expectedSequence: int, payload: Bytes, recordedAt: string)

  datatype DocketEntry = DocketEntry(entryId: string, eventSequence: int, title: string, status: string)

  datatype Snapshot = Snapshot(
    sessionId: string,
    engineRevision: string,
    authorityContract: AuthorityContract,
    sequence: int,
    pins: seq<RevisionPin>,
    commands: seq<StoredCommand>,
    events: seq<StoredEvent>,
    docket: seq<DocketEntry>,
    assetReferences: seq<AssetReference>,
    createdAt: string)

  // ---------------------------------------------------------------------------------------
  // Row order
  // ---------------------------------------------------------------------------------------

  // Docket rows are loaded by event sequence, then entry id.
  predicate DocketLeq(a: DocketEntry, b: DocketEntry) {
    a.eventSequence < b.eventSequence || (a.eventSequence == b.eventSequence && StringLeq(a.entryId, b.entryId))
  }

  // Asset references are loaded by purpose, then digest.
  predicate ReferenceLeq(a: AssetReference, b: AssetReference) {
    if a.purpose != b.purpose then StringLeq(a.purpose, b.purpose) else StringLeq(a.digest, b.digest)
  }

  // Pins are loaded by pack.
  predicate PinLeq(a: RevisionPin, b: RevisionPin) {
    StringLeq(a.packId, b.packId)
  }

  lemma PinsCompare()
    ensures TotalPreorder(PinLeq)
  {
    StringOrderIsTotal();
  }

  // The order in which pins of different packs are given makes no difference.
  lemma {:induction false} PinOrderIsIrrelevant(a: seq<RevisionPin>, b: seq<RevisionPin>)
    requires forall i, j :: 0 <= i < j < |a| ==> a[i].packId != a[j].packId
    requires forall i, j :: 0 <= i < j < |b| ==> b[i].packId != b[j].packId
    requires forall x :: x in a <==> x in b
    ensures Sort(a, PinLeq) == Sort(b, PinLeq)
  {
    PinsCompare();
    StringOrderIsTotal();
    SortSorts(a, PinLeq);
    SortSorts(b, PinLeq);
    SortKeepsDistinct(a, PinLeq);
    SortKeepsDistinct(b, PinLeq);
    forall x, y | x in Sort(a, PinLeq) && y in Sort(a, PinLeq) && PinLeq(x, y) && PinLeq(y, x) ensures x == y {
      StringLeqLaws(x.packId, y.packId, "");
      var i :| 0 <= i < |a| && a[i] == x;
      var j :| 0 <= j < |a| && a[j] == y;
    }
    SortedEnumerationIsUnique(Sort(a, PinLeq), Sort(b, PinLeq), PinLeq);
  }

  lemma ReferenceOrderIsTotal()
    ensures TotalOrder(ReferenceLeq)
  {
    StringOrderIsTotal();
    forall a, b, c
      ensures ReferenceLeq(a, a) && (ReferenceLeq(a, b) || ReferenceLeq(b, a))
      ensures ReferenceLeq(a, b) && ReferenceLeq(b, a) ==> a == b
      ensures ReferenceLeq(a, b) && ReferenceLeq(b, c) ==> ReferenceLeq(a, c)
    {
      StringLeqLaws(a.purpose, b.purpose, c.purpose);
      StringLeqLaws(b.purpose, a.purpose, c.purpose);
      StringLeqLaws(a.digest, b.digest, c.digest);
    }
  }

  // ---------------------------------------------------------------------------------------
  // Appending a batch
  // ---------------------------------------------------------------------------------------

  // Keeps the row order; replaces a row with the same entry id.
  function Upsert(docket: seq<DocketEntry>, entry: DocketEntry): seq<DocketEntry> {
    Insert(entry, WithoutEntry(docket, entry.entryId), DocketLeq)
  }

  function WithoutEntry(docket: seq<DocketEntry>, entryId: string): seq<DocketEntry> {
    if docket == [] then []
    else
      var rest := WithoutEntry(docket[..|docket| - 1], entryId);
      if docket[|docket| - 1].entryId == entryId then rest else rest + [docket[|docket| - 1]]
  }

  function UpsertAll(docket: seq<DocketEntry>, expected: int, writes: seq<DocketWrite>): seq<DocketEntry> {
    if writes == [] then docket
    else
      var w := writes[|writes| - 1];
      Upsert(UpsertAll(docket, expected, writes[..|writes| - 1]),
             DocketEntry(w.entryId, expected + w.sourceEventOffset + 1, w.title, w.status))
  }

  function NumberedEvents(expected: int, writes: seq<EventWrite>): seq<StoredEvent> {
    seq(|writes|, i requires 0 <= i < |writes| =>
      StoredEvent(expected + i + 1, writes[i].eventType, writes[i].payload, writes[i].authorityId))
  }

  function InsertReferences(references: seq<AssetReference>, added: seq<AssetReference>): seq<AssetReference> {
    if added == [] then references
    else Insert(added[|added| - 1], InsertReferences(references, added[..|added| - 1]), ReferenceLeq)
  }

  predicate MayAppend(snapshot: Snapshot, expected: int, batch: CommitBatch) {
    && batch.events != []
    && snapshot.sequence == expected
    && (forall c :: c in snapshot.commands ==> c.commandId != batch.commandId)
    && (forall w :: w in batch.docketChanges ==> w.sourceEventOffset < |batch.events|)
    && (forall r :: r in batch.assetReferences ==> r !in snapshot.assetReferences)
  }

  // One committed transaction; its rows come back in this order.
  function Appended(snapshot: Snapshot, batch: CommitBatch): Snapshot {
    snapshot.(
      sequence := snapshot.sequence + |batch.events|,
      commands := snapshot.commands
                  + [StoredCommand(batch.commandId, snapshot.sequence, batch.command, batch.recordedAt)],
      events := snapshot.events + NumberedEvents(snapshot.sequence, batch.events),
      docket := UpsertAll(snapshot.docket, snapshot.sequence, batch.docketChanges),
      assetReferences := InsertReferences(snapshot.assetReferences, batch.assetReferences))
  }

  // A new docket row for a later event goes last.
  lemma {:induction false} UpsertOfLaterEntry(docket: seq<DocketEntry>, entry: DocketEntry)
    requires forall d :: d in docket ==> d.eventSequence < entry.eventSequence && d.entryId != entry.entryId
    ensures Upsert(docket, entry) == docket + [entry]
  {
    NothingToRemove(docket, entry.entryId);
    InsertLast(docket, entry);
  }

  lemma {:induction false} NothingToRemove(docket: seq<DocketEntry>, entryId: string)
    requires forall d :: d in docket ==> d.entryId != entryId
    ensures WithoutEntry(docket, entryId) == docket
    decreases |docket|
  {
    if docket != [] {
      NothingToRemove(docket[..|docket| - 1], entryId);
      assert docket == docket[..|docket| - 1] + [docket[|docket| - 1]];
    }
  }

  lemma {:induction false} InsertLast(docket: seq<DocketEntry>, entry: DocketEntry)
    requires forall d :: d in docket ==> d.eventSequence < entry.eventSequence
    ensures Insert(entry, docket, DocketLeq) == docket + [entry]
    decreases |docket|
  {
    if docket != [] {
      assert docket[0] in docket;
      InsertLast(docket[1..], entry);
      assert docket == [docket[0]] + docket[1..];
    }
  }

  lemma {:induction false} InsertReferencesElements(references: seq<AssetReference>, added: seq<AssetReference>)
    ensures forall r :: r in InsertReferences(references, added) <==> r in references || r in added
    decreases |added|
  {
    if added != [] {
      assert forall r :: r in added <==> r in added[..|added| - 1] || r == added[|added| - 1];
      InsertReferencesElements(references, added[..|added| - 1]);
    }
  }

  lemma {:induction false} WithoutEntryElements(docket: seq<DocketEntry>, entryId: string)
    ensures forall d :: d in WithoutEntry(docket, entryId) ==> d in docket
    decreases |docket|
  {
    if docket != [] {
      WithoutEntryElements(docket[..|docket| - 1], entryId);
    }
  }

  // Every row a batch writes is for one of its events.
  lemma {:induction false} UpsertedRows(docket: seq<DocketEntry>, expected: int, writes: seq<DocketWrite>, count: nat)
    requires forall w :: w in writes ==> w.sourceEventOffset < count
    ensures forall d :: d in UpsertAll(docket, expected, writes) ==>
              d in docket || expected < d.eventSequence <= expected + count
    decreases |writes|
  {
    if writes != [] {
      var earlier := writes[..|writes| - 1];
      UpsertedRows(docket, expected, earlier, count);
      assert writes[|writes| - 1] in writes;
      WithoutEntryElements(UpsertAll(docket, expected, earlier), writes[|writes| - 1].entryId);
    }
  }

  // No two stored commands share their identifier.
  ghost predicate CommandsAreDistinct(snapshot: Snapshot) {
    forall i, j :: 0 <= i < j < |snapshot.commands| ==> snapshot.commands[i].commandId != snapshot.commands[j].commandId
  }

  // The sequence counts the events, which are numbered from one.
  ghost predicate EventsAreNumbered(snapshot: Snapshot) {
    && snapshot.sequence == |snapshot.events|
    && forall i :: 0 <= i < |snapshot.events| ==> snapshot.events[i].sequence == i + 1
  }

  // Every row of the first snapshot is still there in the second.
  ghost predicate KeepsRows(snapshot: Snapshot, later: Snapshot) {
    && snapshot.events <= later.events && snapshot.commands <= later.commands
    && (forall r :: r in snapshot.assetReferences ==> r in later.assetReferences)
  }

  // What callers rely on: the rows are kept, the sequence grows by the events of the batch, which go
  // on where the numbering was, and no command identifier is stored twice.
  lemma {:induction false} AppendingKeepsHistory(snapshot: Snapshot, expected: int, batch: CommitBatch)
    requires MayAppend(snapshot, expected, batch)
    ensures var next := Appended(snapshot, batch);
            && KeepsRows(snapshot, next)
            && next.sequence - snapshot.sequence == |batch.events| == |next.events| - |snapshot.events| > 0
            && |next.commands| == |snapshot.commands| + 1
            && next.commands[|snapshot.commands|].commandId == batch.commandId
            && (forall r :: r in batch.assetReferences ==> r in next.assetReferences)
            && (forall d :: d in next.docket ==>
                  d in snapshot.docket || snapshot.sequence < d.eventSequence <= next.sequence)
            && (CommandsAreDistinct(snapshot) ==> CommandsAreDistinct(next))
            && (EventsAreNumbered(snapshot) ==> EventsAreNumbered(next))
  {
    var next := Appended(snapshot, batch);
    InsertReferencesElements(snapshot.assetReferences, batch.assetReferences);
    UpsertedRows(snapshot.docket, snapshot.sequence, batch.docketChanges, |batch.events|);
    forall i, j | CommandsAreDistinct(snapshot) && 0 <= i < j < |next.commands|
      ensures next.commands[i].commandId != next.commands[j].commandId
    {
      assert snapshot.commands[i] in snapshot.commands;
    }
  }

  // ---------------------------------------------------------------------------------------
  // The two stores
  // ---------------------------------------------------------------------------------------

  // What the surroundings may do to one call: nothing, or the database refuses the batch for a
  // reason of its own, or the batch commits and the reload that follows fails.
  datatype StoreFault = NoFault | BatchRefused | ReloadFails

  // A database holding one session.
  class SessionStore {
    var row: Snapshot

    constructor (created: Snapshot)
      ensures row == created
    {
      row := created;
    }

    method Append(expected: int, batch: CommitBatch, fault: StoreFault) returns (committed: bool)
      modifies this
      ensures committed <==> fault != BatchRefused && MayAppend(old(row), expected, batch)
      ensures row == if committed then Appended(old(row), batch) else old(row)
    {
      committed := fault != BatchRefused && MayAppend(row, expected, batch);
      if committed {
        row := Appended(row, batch);
      }
    }
  }

  datatype Attempt = Attempt(expected: int, batch: CommitBatch, fault: StoreFault)

  // Whatever is attempted in whatever order: the stored rows stay, the numbering has no gap, and of
  // all the attempts with one command identifier at most one commits.
  method AppendInTurn(store: SessionStore, attempts: seq<Attempt>) returns (committed: seq<bool>)
    modifies store
    ensures |committed| == |attempts| && KeepsRows(old(store.row), store.row)
    ensures forall i, j :: 0 <= i < j < |attempts| && committed[i] && committed[j] ==>
              attempts[i].batch.commandId != attempts[j].batch.commandId
    ensures old(CommandsAreDistinct(store.row)) ==> CommandsAreDistinct(store.row)
    ensures old(EventsAreNumbered(store.row)) ==> EventsAreNumbered(store.row)
  {
    hide Appended, CommandsAreDistinct, EventsAreNumbered;
    committed := [];
    for i := 0 to |attempts|
      invariant |committed| == i && KeepsRows(old(store.row), store.row)
      invariant forall k :: 0 <= k < i && committed[k] ==>
                  exists c :: c in store.row.commands && c.commandId == attempts[k].batch.commandId
      invariant forall k, l :: 0 <= k < l < i && committed[k] && committed[l] ==>
                  attempts[k].batch.commandId != attempts[l].batch.commandId
      invariant old(CommandsAreDistinct(store.row)) ==> CommandsAreDistinct(store.row)
      invariant old(EventsAreNumbered(store.row)) ==> EventsAreNumbered(store.row)
    {
      var a := attempts[i];
      ghost var before := store.row;
      var done := store.Append(a.expected, a.batch, a.fault);
      if done {
        AppendingKeepsHistory(before, a.expected, a.batch);
        assert store.row.commands[|before.commands|] in store.row.commands;
        assert forall c :: c in before.commands ==> c in store.row.commands;
      }
      committed := committed + [done];
    }
  }

  // Published immutable objects, by digest.
  class AssetStore {
    var objects: set<string>

    constructor ()
      ensures objects == {}
    {
      objects := {};
    }

    method Publish(digest: string)
      modifies this
      ensures objects == old(objects) + {digest}
    {
      objects := objects + {digest};
    }

    // Takes unreferenced objects out of the way; a missing referenced object is an error.
    method Recover(references: seq<AssetReference>) returns (ok: bool)
      modifies this
      ensures ok <==> forall r :: r in references ==> r.digest in old(objects)
      ensures !ok ==> objects == old(objects)
      ensures ok ==> objects == set r | r in references :: r.digest
    {
      ok := forall r :: r in references ==> r.digest in objects;
      if ok {
        objects := set r | r in references :: r.digest;
      }
    }
  }
}

/** The controller of one filing session: it decides commands, commits the events they lead to,
    and rebuilds a session from what the database holds. */
module SessionControl {
  import opened ProcedureModel
  import opened ProcedureDecision
  import opened ProcedureEngine
  import opened ProcedureHistory
  import opened SessionStorage
  import opened Sorting

  // The event codec, the command encoder and the document digest are taken as given.
  datatype Codec = Codec(
    encode: LegalEvent -> Option<Bytes>,
    decode: Bytes -> Option<LegalEvent>,
    encodeCommand: SubmitFiling -> Bytes,
    sha256: Bytes -> string)

  ghost predicate DecodesWhatItEncodes(codec: Codec) {
    forall e :: codec.encode(e).Some? ==> codec.decode(codec.encode(e).value) == Some(e)
  }

  datatype SessionError =
    | InvalidConfiguration
    | AssetStoreFailure
    | DocumentDigestMismatch
    | EngineFailure
    | EventCodecFailure
    | SessionStoreFailure
    | CorruptSession

  datatype Outcome<+T> = Done(value: T) | Failed(error: SessionError)

  // ---------------------------------------------------------------------------------------
  // What one event leaves in the database
  // ---------------------------------------------------------------------------------------

  function EventType(event: LegalEvent): string {
    match event
    case FilingAccepted(_, _, _, _, _, _, _, _) => "filing.accepted"
    case FilingDeficiencyIssued(_, _, _, _, _, _, _, _, _, _) => "filing.deficiency_issued"
    case FilingRejected(_, _, _, _, _, _, _) => "filing.rejected"
  }

  function DocumentDigest(event: LegalEvent): Option<string> {
    if event.FilingRejected? then None else Some(event.documentSha256)
  }

  function FilingDocument(digest: string): AssetReference {
    AssetReference(digest, "filing-document")
  }

  function EntryId(submissionId: string): string {
    "initiation." + submissionId
  }

  function DocketChange(event: LegalEvent, offset: nat): Option<DocketWrite> {
    match event
    case FilingAccepted(_, id, _, _, _, _, _, _) =>
      Some(DocketWrite(EntryId(id), offset, "Initiating filing accepted", "accepted"))
    case FilingDeficiencyIssued(_, id, _, _, _, _, _, _, _, _) =>
      Some(DocketWrite(EntryId(id), offset, "Initiating filing deficiency issued", "deficient"))
    case FilingRejected(_, _, _, _, _, _, _) => None
  }

  // The docket rows the events themselves call for.
  function DerivedDocket(log: seq<LegalEvent>): seq<DocketEntry> {
    if log == [] then []
    else
      var earlier := DerivedDocket(log[..|log| - 1]);
      var change := DocketChange(log[|log| - 1], |log| - 1);
      if change.None? then earlier
      else earlier + [DocketEntry(change.value.entryId, |log|, change.value.title, change.value.status)]
  }

  // The stored row for the event at position `i` says no more and no less than that event.
  ghost predicate RowFaithful(codec: Codec, snapshot: Snapshot, i: int, event: LegalEvent)
    requires 0 <= i < |snapshot.events|
  {
    var row := snapshot.events[i];
    && row.sequence == i + 1
    && codec.decode(row.payload) == Some(event)
    && row.eventType == EventType(event)
    && row.authorityId == event.authority.primary.id
    && (DocumentDigest(event).Some? ==> FilingDocument(DocumentDigest(event).value) in snapshot.assetReferences)
  }

  // Some event is faithfully stored in the row at position `i`.
  ghost predicate RowReadable(codec: Codec, snapshot: Snapshot, i: int)
    requires 0 <= i < |snapshot.events|
  {
    var event := codec.decode(snapshot.events[i].payload);
    event.Some? && RowFaithful(codec, snapshot, i, event.value)
  }

  // The snapshot holds exactly this log, with its docket, and every referenced document can be read.
  ghost predicate Holds(codec: Codec, initial: Session, snapshot: Snapshot, objects: set<string>,
                        log: seq<LegalEvent>)
  {
    && snapshot.sessionId == initial.id
    && snapshot.sequence == |snapshot.events| == |log|
    && (forall r :: r in snapshot.assetReferences ==> r.digest in objects)
    && (forall i :: 0 <= i < |log| ==> RowFaithful(codec, snapshot, i, log[i]))
    && snapshot.docket == DerivedDocket(log)
  }

  // A snapshot can hold no log but the one its rows decode to.
  lemma OnlyTheDecodedLog(codec: Codec, initial: Session, snapshot: Snapshot, objects: set<string>,
                          decoded: seq<LegalEvent>)
    requires |decoded| == |snapshot.events|
    requires forall i :: 0 <= i < |decoded| ==> RowFaithful(codec, snapshot, i, decoded[i])
    ensures forall log :: Holds(codec, initial, snapshot, objects, log) ==> log == decoded
  {
    forall log | Holds(codec, initial, snapshot, objects, log) ensures log == decoded {
      forall i | 0 <= i < |log| ensures log[i] == decoded[i] {
        assert RowFaithful(codec, snapshot, i, log[i]) && RowFaithful(codec, snapshot, i, decoded[i]);
      }
    }
  }

  lemma {:induction false} HeldLogIsUnique(codec: Codec, initial: Session, snapshot: Snapshot, objects: set<string>,
                                           a: seq<LegalEvent>, b: seq<LegalEvent>)
    requires Holds(codec, initial, snapshot, objects, a) && Holds(codec, initial, snapshot, objects, b)
    ensures a == b
  {
    OnlyTheDecodedLog(codec, initial, snapshot, objects, a);
  }

  lemma HeldReferencesAreReadable(codec: Codec, initial: Session, snapshot: Snapshot, objects: set<string>,
                                  log: seq<LegalEvent>)
    requires Holds(codec, initial, snapshot, objects, log)
    ensures snapshot.sequence == |log|
    ensures forall r :: r in snapshot.assetReferences ==> r.digest in objects
  {
  }

  lemma HeldRowsAreReadable(codec: Codec, initial: Session, snapshot: Snapshot, objects: set<string>,
                            log: seq<LegalEvent>)
    requires Holds(codec, initial, snapshot, objects, log)
    ensures forall i :: 0 <= i < |snapshot.events| ==> RowReadable(codec, snapshot, i)
  {
    forall i | 0 <= i < |snapshot.events| ensures RowReadable(codec, snapshot, i) {
      assert RowFaithful(codec, snapshot, i, log[i]);
    }
  }

  // ---------------------------------------------------------------------------------------
  // Rebuilding a session from its snapshot
  // ---------------------------------------------------------------------------------------

  lemma ReadableExactlyWhen(codec: Codec, snapshot: Snapshot, i: nat)
    requires i < |snapshot.events|
    ensures var row := snapshot.events[i];
            var event := codec.decode(row.payload);
            && (RowReadable(codec, snapshot, i) <==>
                && row.sequence == i + 1 && event.Some?
                && row.eventType == EventType(event.value) && row.authorityId == event.value.authority.primary.id
                && match DocumentDigest(event.value)
                   case None => true
                   case Some(digest) => FilingDocument(digest) in snapshot.assetReferences)
            && (RowReadable(codec, snapshot, i) ==> RowFaithful(codec, snapshot, i, event.value))
  {
    hide EventType, DocumentDigest;
  }

  // Decodes every stored event and re-derives the docket on the way.
  method DecodeRows(codec: Codec, snapshot: Snapshot) returns (r: Outcome<seq<LegalEvent>>, docket: seq<DocketEntry>)
    ensures r.Done? ==> |r.value| == |snapshot.events| && docket == DerivedDocket(r.value)
    ensures r.Done? ==> forall i :: 0 <= i < |r.value| ==> RowFaithful(codec, snapshot, i, r.value[i])
    ensures r.Failed? ==> exists i :: 0 <= i < |snapshot.events| && !RowReadable(codec, snapshot, i)
    ensures r.Failed? ==> r.error == CorruptSession || r.error == EventCodecFailure
  {
    hide RowFaithful, RowReadable, EventType, DocumentDigest, DocketChange;
    var decoded: seq<LegalEvent> := [];
    docket := [];
    for i := 0 to |snapshot.events|
      invariant |decoded| == i && docket == DerivedDocket(decoded)
      invariant forall k :: 0 <= k < i ==> RowFaithful(codec, snapshot, k, decoded[k])
    {
      var row := snapshot.events[i];
      ReadableExactlyWhen(codec, snapshot, i);
      if row.sequence != i + 1 {
        return Failed(CorruptSession), docket;
      }
      var event := codec.decode(row.payload);
      if event.None? {
        return Failed(EventCodecFailure), docket;
      }
      if row.eventType != EventType(event.value) || row.authorityId != event.value.authority.primary.id {
        return Failed(CorruptSession), docket;
      }
      var document := DocumentDigest(event.value);
      if document.Some? && FilingDocument(document.value) !in snapshot.assetReferences {
        return Failed(CorruptSession), docket;
      }
      var change := DocketChange(event.value, i);
      if change.Some? {
        docket := docket + [DocketEntry(change.value.entryId, row.sequence, change.value.title, change.value.status)];
      }
      assert (decoded + [event.value])[..i] == decoded;
      decoded := decoded + [event.value];
    }
    return Done(decoded), docket;
  }

  // Succeeds exactly on a snapshot that holds some replayable log, and yields that log's session.
  method ReplaySnapshot(codec: Codec, procedure: Procedure, case_: Case, initial: Session, snapshot: Snapshot,
                        objects: set<string>)
    returns (r: Outcome<Session>)
    ensures r.Done? <==> exists log :: Holds(codec, initial, snapshot, objects, log)
                                       && Replayed(procedure, case_, initial, log).Ok?
    ensures r.Done? ==> forall log :: Holds(codec, initial, snapshot, objects, log) ==>
                          Replayed(procedure, case_, initial, log) == Ok(r.value)
    ensures r == Failed(EngineFailure) <==> exists log :: Holds(codec, initial, snapshot, objects, log)
                                                          && Replayed(procedure, case_, initial, log).Err?
    ensures r == Failed(AssetStoreFailure) <==>
            && snapshot.sessionId == initial.id && snapshot.sequence == |snapshot.events|
            && exists a :: a in snapshot.assetReferences && a.digest !in objects
    ensures r != Failed(InvalidConfiguration)
  {
    if snapshot.sessionId != initial.id || snapshot.sequence < 0 || snapshot.sequence != |snapshot.events| {
      return Failed(CorruptSession);
    }
    if !(forall r :: r in snapshot.assetReferences ==> r.digest in objects) {
      return Failed(AssetStoreFailure);
    }
    var decoded, expectedDocket := DecodeRows(codec, snapshot);
    if decoded.Failed? {
      forall log | Holds(codec, initial, snapshot, objects, log) ensures false {
        HeldRowsAreReadable(codec, initial, snapshot, objects, log);
      }
      return Failed(decoded.error);
    }
    OnlyTheDecodedLog(codec, initial, snapshot, objects, decoded.value);
    if expectedDocket != snapshot.docket {
      return Failed(CorruptSession);
    }
    assert Holds(codec, initial, snapshot, objects, decoded.value);
    var replayed := Replay(procedure, case_, initial, decoded.value);
    if replayed.Err? {
      return Failed(EngineFailure);
    }
    return Done(replayed.value);
  }

  // ---------------------------------------------------------------------------------------
  // One commit keeps the snapshot faithful
  // ---------------------------------------------------------------------------------------

  lemma {:induction false} DocketRowsAreEarlier(log: seq<LegalEvent>)
    ensures forall d :: d in DerivedDocket(log) ==>
              d.eventSequence <= |log| && exists e :: e in log && d.entryId == EntryId(e.submissionId)
    decreases |log|
  {
    if log != [] {
      var front, last := log[..|log| - 1], log[|log| - 1];
      DocketRowsAreEarlier(front);
      assert log == front + [last];
      assert last in log;
      forall d | d in DerivedDocket(log)
        ensures d.eventSequence <= |log| && exists e :: e in log && d.entryId == EntryId(e.submissionId)
      {
        if d in DerivedDocket(front) {
          var e :| e in front && d.entryId == EntryId(e.submissionId);
          assert e in log;
        }
      }
    }
  }

  // What the docket shows of the event at this position.
  ghost predicate Shows(row: DocketEntry, e: LegalEvent, position: nat) {
    && row.entryId == "initiation." + e.submissionId && row.eventSequence == position + 1
    && row.title == (if e.FilingAccepted? then "Initiating filing accepted" else "Initiating filing deficiency issued")
    && row.status == (if e.FilingAccepted? then "accepted" else "deficient")
  }

  lemma LastRowShows(log: seq<LegalEvent>, n: nat)
    requires |log| == n + 1
    ensures if log[n].FilingRejected? then DerivedDocket(log) == DerivedDocket(log[..n])
            else exists row :: DerivedDocket(log) == DerivedDocket(log[..n]) + [row] && Shows(row, log[n], n)
  {
    if !log[n].FilingRejected? {
      var change := DocketChange(log[n], n).value;
      assert Shows(DocketEntry(change.entryId, n + 1, change.title, change.status), log[n], n);
    }
  }

  // The row of a docketed event stands behind those of the docketed events before it.
  ghost predicate RowStands(docket: seq<DocketEntry>, log: seq<LegalEvent>, i: int)
    requires 0 <= i < |log|
  {
    !log[i].FilingRejected? ==>
      DocketedCount(log[..i]) < |docket| && Shows(docket[DocketedCount(log[..i])], log[i], i)
  }

  // One row for every acceptance and deficiency, in the order of the events.
  lemma {:induction false} DerivedDocketExactly(log: seq<LegalEvent>)
    ensures |DerivedDocket(log)| == DocketedCount(log)
    ensures forall i :: 0 <= i < |log| ==> RowStands(DerivedDocket(log), log, i)
    decreases |log|
  {
    if log != [] {
      var n := |log| - 1;
      DerivedDocketExactly(log[..n]);
      LastRowShows(log, n);
      assert DocketedCount(log) == DocketedCount(log[..n]) + if log[n].FilingRejected? then 0 else 1;
      forall i | 0 <= i < |log| ensures RowStands(DerivedDocket(log), log, i) {
        hide Shows, DerivedDocket, DocketedCount;
        if i < n {
          assert RowStands(DerivedDocket(log[..n]), log[..n], i);
          assert log[..n][..i] == log[..i];
        }
      }
    }
  }

  // The three kinds of events are stored under different types.
  lemma EventTypeTellsTheKind(a: LegalEvent, b: LegalEvent)
    ensures EventType(a) == EventType(b) <==>
            a.FilingAccepted? == b.FilingAccepted? && a.FilingRejected? == b.FilingRejected?
  {
    assert |EventType(a)| == if a.FilingAccepted? then 15 else if a.FilingRejected? then 15 else 24;
    assert EventType(a)[7] == if a.FilingAccepted? then 'a' else if a.FilingRejected? then 'r' else 'd';
    assert EventType(b)[7] == if b.FilingAccepted? then 'a' else if b.FilingRejected? then 'r' else 'd';
  }

  function BatchFor(codec: Codec, command: SubmitFiling, recordedAt: string, event: LegalEvent, payload: Bytes,
                    added: seq<AssetReference>): CommitBatch
  {
    var change := DocketChange(event, 0);
    CommitBatch(command.submissionId, codec.encodeCommand(command), recordedAt,
                [EventWrite(EventType(event), payload, event.authority.primary.id)],
                if change.Some? then [change.value] else [],
                added)
  }

  // Docket rows after committing one event for a submission the log has not decided yet.
  lemma {:induction false} CommittedDocket(log: seq<LegalEvent>, event: LegalEvent)
    requires forall e :: e in log ==> e.submissionId != event.submissionId
    ensures var change := DocketChange(event, 0);
            UpsertAll(DerivedDocket(log), |log|, if change.Some? then [change.value] else [])
            == DerivedDocket(log + [event])
  {
    hide EntryId, UpsertAll, Upsert;
    var change := DocketChange(event, 0);
    assert (log + [event])[..|log|] == log;
    UpsertAllOf(DerivedDocket(log), |log|, DocketWrite(EntryId(event.submissionId), 0, "", ""));
    if change.Some? {
      var w := change.value;
      var entry := DocketEntry(w.entryId, |log| + 1, w.title, w.status);
      DocketRowsAreEarlier(log);
      forall d | d in DerivedDocket(log) ensures d.eventSequence < entry.eventSequence && d.entryId != entry.entryId {
        var e :| e in log && d.entryId == EntryId(e.submissionId);
        EntryIdsDiffer(e.submissionId, event.submissionId);
      }
      UpsertOfLaterEntry(DerivedDocket(log), entry);
      UpsertAllOf(DerivedDocket(log), |log|, w);
    }
  }

  lemma EntryIdsDiffer(a: string, b: string)
    ensures EntryId(a) == EntryId(b) ==> a == b
  {
    var n := |"initiation."|;
    assert EntryId(a)[n..] == a && EntryId(b)[n..] == b;
  }

  lemma UpsertAllOf(docket: seq<DocketEntry>, expected: int, w: DocketWrite)
    ensures UpsertAll(docket, expected, []) == docket
    ensures UpsertAll(docket, expected, [w]) ==
            Upsert(docket, DocketEntry(w.entryId, expected + w.sourceEventOffset + 1, w.title, w.status))
  {
    hide Upsert;
    assert [w][..0] == [];
  }

  // The snapshot after one event was committed.
  function Committed(codec: Codec, snapshot: Snapshot, command: SubmitFiling, recordedAt: string, event: LegalEvent,
                     added: seq<AssetReference>): Snapshot
    requires codec.encode(event).Some?
  {
    Appended(snapshot, BatchFor(codec, command, recordedAt, event, codec.encode(event).value, added))
  }

  lemma CommittedEvents(codec: Codec, snapshot: Snapshot, command: SubmitFiling, recordedAt: string,
                        event: LegalEvent, added: seq<AssetReference>)
    requires codec.encode(event).Some?
    ensures var next := Committed(codec, snapshot, command, recordedAt, event, added);
            && next.events == snapshot.events + [StoredEvent(snapshot.sequence + 1, EventType(event),
                                                             codec.encode(event).value, event.authority.primary.id)]
            && next.assetReferences == InsertReferences(snapshot.assetReferences, added)
  {
    hide UpsertAll, InsertReferences, EventType, DocketChange;
  }

  lemma CommitKeepsRows(codec: Codec, initial: Session, snapshot: Snapshot, objects: set<string>, log: seq<LegalEvent>,
                        command: SubmitFiling, recordedAt: string, event: LegalEvent, added: seq<AssetReference>)
    requires DecodesWhatItEncodes(codec) && codec.encode(event).Some?
    requires Holds(codec, initial, snapshot, objects, log)
    requires DocumentDigest(event).Some? ==>
               FilingDocument(DocumentDigest(event).value) in snapshot.assetReferences + added
    ensures var next := Committed(codec, snapshot, command, recordedAt, event, added);
            && |next.events| == |log| + 1
            && forall i :: 0 <= i < |log| + 1 ==> RowFaithful(codec, next, i, (log + [event])[i])
  {
    hide DerivedDocket, InsertReferences, RowFaithful, DocumentDigest, EventType, Committed;
    var next := Committed(codec, snapshot, command, recordedAt, event, added);
    CommittedEvents(codec, snapshot, command, recordedAt, event, added);
    InsertReferencesElements(snapshot.assetReferences, added);
    forall i | 0 <= i < |log| + 1 ensures RowFaithful(codec, next, i, (log + [event])[i]) {
      if i < |log| {
        RowStaysFaithful(codec, snapshot, next, i, log[i]);
      } else {
        NewRowIsFaithful(codec, next, i, event);
      }
    }
  }

  lemma CommitKeepsReferences(codec: Codec, snapshot: Snapshot, objects: set<string>, command: SubmitFiling,
                              recordedAt: string, event: LegalEvent, added: seq<AssetReference>)
    requires codec.encode(event).Some?
    requires forall r :: r in snapshot.assetReferences ==> r.digest in objects
    requires added == [] || (|added| == 1 && added[0].digest in objects)
    ensures var next := Committed(codec, snapshot, command, recordedAt, event, added);
            forall r :: r in next.assetReferences ==> r.digest in objects
  {
    hide Committed, InsertReferences;
    CommittedEvents(codec, snapshot, command, recordedAt, event, added);
    InsertReferencesElements(snapshot.assetReferences, added);
  }

  lemma CommitKeepsDocket(codec: Codec, snapshot: Snapshot, log: seq<LegalEvent>, command: SubmitFiling,
                          recordedAt: string, event: LegalEvent, added: seq<AssetReference>)
    requires codec.encode(event).Some?
    requires snapshot.sequence == |log| && snapshot.docket == DerivedDocket(log)
    requires forall e :: e in log ==> e.submissionId != event.submissionId
    ensures Committed(codec, snapshot, command, recordedAt, event, added).docket == DerivedDocket(log + [event])
  {
    CommittedDocket(log, event);
    hide DerivedDocket, UpsertAll, InsertReferences, EventType;
  }

  lemma CommitKeepsHolding(
    codec: Codec, initial: Session, snapshot: Snapshot, objects: set<string>, log: seq<LegalEvent>,
    command: SubmitFiling, recordedAt: string, event: LegalEvent, added: seq<AssetReference>)
    requires DecodesWhatItEncodes(codec) && codec.encode(event).Some?
    requires Holds(codec, initial, snapshot, objects, log)
    requires forall e :: e in log ==> e.submissionId != event.submissionId
    requires added == [] || (|added| == 1 && added[0].digest in objects)
    requires DocumentDigest(event).Some? ==>
               FilingDocument(DocumentDigest(event).value) in snapshot.assetReferences + added
    ensures Holds(codec, initial, Committed(codec, snapshot, command, recordedAt, event, added), objects, log + [event])
  {
    CommitKeepsRows(codec, initial, snapshot, objects, log, command, recordedAt, event, added);
    CommitKeepsReferences(codec, snapshot, objects, command, recordedAt, event, added);
    CommitKeepsDocket(codec, snapshot, log, command, recordedAt, event, added);
    CommittedSequence(codec, snapshot, command, recordedAt, event, added);
    hide Committed, RowFaithful, DerivedDocket, DocumentDigest, InsertReferences, DecodesWhatItEncodes;
  }

  lemma CommittedSequence(codec: Codec, snapshot: Snapshot, command: SubmitFiling, recordedAt: string,
                          event: LegalEvent, added: seq<AssetReference>)
    requires codec.encode(event).Some?
    ensures var next := Committed(codec, snapshot, command, recordedAt, event, added);
            && next.sessionId == snapshot.sessionId && next.sequence == snapshot.sequence + 1
            && SameIdentity(next, snapshot)
            && next.commands == snapshot.commands + [StoredCommand(command.submissionId, snapshot.sequence,
                                                                   codec.encodeCommand(command), recordedAt)]
  {
    hide UpsertAll, InsertReferences, EventType, DocketChange;
  }

  // The database may only object to the expected sequence, the command or the reference.
  lemma BatchMayBeAppended(codec: Codec, snapshot: Snapshot, expected: int, command: SubmitFiling, recordedAt: string,
                           event: LegalEvent, added: seq<AssetReference>)
    requires codec.encode(event).Some?
    ensures MayAppend(snapshot, expected,
                      BatchFor(codec, command, recordedAt, event, codec.encode(event).value, added)) <==>
            && snapshot.sequence == expected
            && (forall c :: c in snapshot.commands ==> c.commandId != command.submissionId)
            && (forall r :: r in added ==> r !in snapshot.assetReferences)
  {
    hide EventType, EntryId;
  }

  lemma RowStaysFaithful(codec: Codec, snapshot: Snapshot, next: Snapshot, i: nat, event: LegalEvent)
    requires i < |snapshot.events| && i < |next.events| && next.events[i] == snapshot.events[i]
    requires forall r :: r in snapshot.assetReferences ==> r in next.assetReferences
    requires RowFaithful(codec, snapshot, i, event)
    ensures RowFaithful(codec, next, i, event)
  {
  }

  lemma NewRowIsFaithful(codec: Codec, next: Snapshot, i: nat, event: LegalEvent)
    requires DecodesWhatItEncodes(codec) && codec.encode(event).Some? && i < |next.events|
    requires next.events[i] ==
             StoredEvent(i + 1, EventType(event), codec.encode(event).value, event.authority.primary.id)
    requires DocumentDigest(event).Some? ==> FilingDocument(DocumentDigest(event).value) in next.assetReferences
    ensures RowFaithful(codec, next, i, event)
  {
  }

  // Committing what was decided in the session a held log replays to leaves a longer held log,
  // which replays to the applied session.
  lemma {:induction false} CommitOfDecision(codec: Codec, procedure: Procedure, case_: Case, initial: Session,
                                            snapshot: Snapshot, objects: set<string>, log: seq<LegalEvent>,
                                            command: SubmitFiling, recordedAt: string, added: seq<AssetReference>)
    requires DecodesWhatItEncodes(codec) && Pristine(procedure, case_, initial)
    requires Holds(codec, initial, snapshot, objects, log) && Replayed(procedure, case_, initial, log).Ok?
    requires Decide(procedure, case_, Replayed(procedure, case_, initial, log).value, command).Ok?
    requires codec.encode(Decide(procedure, case_, Replayed(procedure, case_, initial, log).value,
                                 command).value[0]).Some?
    requires added == (if FilingDocument(command.documentSha256) in snapshot.assetReferences then []
                       else [FilingDocument(command.documentSha256)])
    ensures var session := Replayed(procedure, case_, initial, log).value;
            var event := Decide(procedure, case_, session, command).value[0];
            && Holds(codec, initial, Committed(codec, snapshot, command, recordedAt, event, added),
                     objects + {command.documentSha256}, log + [event])
            && Apply(procedure, case_, session, event).Ok?
            && Replayed(procedure, case_, initial, log + [event]) == Apply(procedure, case_, session, event)
  {
    var session := Replayed(procedure, case_, initial, log).value;
    var event := Decide(procedure, case_, session, command).value[0];
    hide Decide, Apply, Replayed, Pristine, Holds, Committed;
    DecidedEventExtendsLog(procedure, case_, initial, log, command);
    NewSubmission(procedure, case_, initial, log, event);
    DecidedDocument(procedure, case_, session, command);
    HoldsWithMore(codec, initial, snapshot, objects, objects + {command.documentSha256}, log);
    CommitKeepsHolding(codec, initial, snapshot, objects + {command.documentSha256}, log, command, recordedAt, event,
                       added);
  }

  lemma NewSubmission(procedure: Procedure, case_: Case, initial: Session, log: seq<LegalEvent>, event: LegalEvent)
    requires Pristine(procedure, case_, initial) && Replayed(procedure, case_, initial, log + [event]).Ok?
    ensures forall e :: e in log ==> e.submissionId != event.submissionId
  {
    hide Replayed, Pristine;
    ReplayAcceptsExactlyLegalLogs(procedure, case_, initial, log + [event]);
    assert (log + [event])[..|log|] == log;
  }

  lemma DecidedDocument(procedure: Procedure, case_: Case, session: Session, command: SubmitFiling)
    requires Decide(procedure, case_, session, command).Ok?
    ensures var event := Decide(procedure, case_, session, command).value[0];
            DocumentDigest(event).Some? ==> DocumentDigest(event).value == command.documentSha256
  {
    hide Validate, MissingFields;
  }

  lemma HoldsWithMore(codec: Codec, initial: Session, snapshot: Snapshot, objects: set<string>, more: set<string>,
                      log: seq<LegalEvent>)
    requires Holds(codec, initial, snapshot, objects, log) && objects <= more
    ensures Holds(codec, initial, snapshot, more, log)
  {
    hide RowFaithful, DerivedDocket;
  }

  predicate SameIdentity(a: Snapshot, b: Snapshot) {
    a.engineRevision == b.engineRevision && a.pins == b.pins && a.authorityContract == b.authorityContract
  }

  // ---------------------------------------------------------------------------------------
  // The controller
  // ---------------------------------------------------------------------------------------

  class SessionController {
    const procedure: Procedure
    const case_: Case
    const initial: Session
    const codec: Codec
    const store: SessionStore
    const assets: AssetStore
    var state: Session
    var snapshot: Snapshot
    ghost var log: seq<LegalEvent>  // every event the database holds

    ghost predicate Valid()
      reads this, store, assets
    {
      && DecodesWhatItEncodes(codec)
      && Pristine(procedure, case_, initial)
      && Holds(codec, initial, store.row, assets.objects, log)
      && Replayed(procedure, case_, initial, log).Ok?
      && 0 <= snapshot.sequence <= |log|
      && Replayed(procedure, case_, initial, log[..snapshot.sequence]) == Ok(state)
      && (snapshot.sequence == |log| ==> snapshot == store.row)
    }

    // Memory reflects everything the database holds.
    ghost predicate InSync()
      reads this
    {
      snapshot.sequence == |log|
    }

    // Each stored command is the submission its event answers.
    ghost predicate CommandsMatchLog()
      reads this, store
    {
      |store.row.commands| == |log|
      && forall i :: 0 <= i < |log| ==> store.row.commands[i].commandId == log[i].submissionId
    }

    constructor Create(procedure: Procedure, case_: Case, initial: Session, codec: Codec, store: SessionStore,
                       assets: AssetStore)
      requires DecodesWhatItEncodes(codec)
      requires Pristine(procedure, case_, initial)
      requires store.row.sessionId == initial.id && store.row.sequence == 0 && store.row.commands == []
      requires store.row.events == [] && store.row.docket == [] && store.row.assetReferences == []
      ensures Valid() && InSync() && CommandsMatchLog()
      ensures this.procedure == procedure && this.case_ == case_ && this.initial == initial && this.codec == codec
      ensures this.store == store && this.assets == assets
      ensures state == initial && log == []
    {
      this.procedure, this.case_, this.initial, this.codec := procedure, case_, initial, codec;
      this.store, this.assets := store, assets;
      this.state, this.snapshot, this.log := initial, store.row, [];
    }

    constructor Restored(procedure: Procedure, case_: Case, initial: Session, codec: Codec, store: SessionStore,
                         assets: AssetStore, state: Session, ghost log: seq<LegalEvent>)
      requires DecodesWhatItEncodes(codec)
      requires Pristine(procedure, case_, initial)
      requires Holds(codec, initial, store.row, assets.objects, log)
      requires Replayed(procedure, case_, initial, log) == Ok(state)
      ensures Valid() && InSync()
      ensures this.procedure == procedure && this.case_ == case_ && this.initial == initial && this.codec == codec
      ensures this.store == store && this.assets == assets
      ensures this.state == state && this.log == log
    {
      this.procedure, this.case_, this.initial, this.codec := procedure, case_, initial, codec;
      this.store, this.assets := store, assets;
      this.state, this.snapshot, this.log := state, store.row, log;
      new;
      assert log[..|log|] == log;
    }

    // Whether a submission can go through at all, before the database is asked.
    ghost predicate Submittable(command: SubmitFiling, document: Bytes, recordedAt: string)
      reads this
    {
      && recordedAt != "" && document != []
      && codec.sha256(document) == command.documentSha256
      && Decide(procedure, case_, state, command).Ok?
      && codec.encode(Decide(procedure, case_, state, command).value[0]).Some?
    }

    // The engine has already refused every command the database holds.
    lemma {:induction false} SubmittableIsNew(command: SubmitFiling, document: Bytes, recordedAt: string)
      requires Valid() && InSync() && CommandsMatchLog() && Submittable(command, document, recordedAt)
      ensures forall c :: c in store.row.commands ==> c.commandId != command.submissionId
    {
      hide Decide, Holds, Pristine, DecodesWhatItEncodes, Replayed;
      assert log[..|log|] == log;
      ReplayAcceptsExactlyLegalLogs(procedure, case_, initial, log);
      DecidedIsNew(procedure, case_, state, command);
      forall c | c in store.row.commands ensures c.commandId != command.submissionId {
        var i :| 0 <= i < |log| && store.row.commands[i] == c;
        assert Submissions(log)[i] == log[i].submissionId;
      }
    }

    // Either the event that session and filing call for is committed and both memory and log advance
    // by it, or memory stays as it was; only a failed reload leaves the log ahead, and a controller
    // that has fallen behind commits nothing more. The check before the commit never fires: an engine
    // failure always comes from the decision itself.
    method Submit(command: SubmitFiling, document: Bytes, recordedAt: string, fault: StoreFault)
      returns (r: Outcome<LegalEvent>)
      requires Valid()
      modifies this, store, assets
      ensures Valid()
      ensures r.Done? <==> old(Submittable(command, document, recordedAt)) && old(InSync()) && fault == NoFault
                           && old(forall c :: c in store.row.commands ==> c.commandId != command.submissionId)
      ensures old(CommandsMatchLog()) ==>
                (r.Done? <==> old(Submittable(command, document, recordedAt)) && old(InSync()) && fault == NoFault)
      ensures r.Done? ==>
                && InSync() && Decide(procedure, case_, old(state), command) == Ok([r.value])
                && CalledFor(procedure, case_, old(state), command, r.value)
                && log == old(log) + [r.value]
                && Ok(state) == Apply(procedure, case_, old(state), r.value)
      ensures r.Failed? ==> state == old(state) && snapshot == old(snapshot)
      ensures r.Failed? ==>
                log == old(log)
                || (fault == ReloadFails && old(InSync()) && old(Submittable(command, document, recordedAt))
                    && log == old(log) + Decide(procedure, case_, old(state), command).value)
      ensures r == Failed(EngineFailure) ==> Decide(procedure, case_, old(state), command).Err?
      ensures r != Failed(CorruptSession)
      ensures old(CommandsMatchLog()) ==> CommandsMatchLog()
      ensures SameIdentity(store.row, old(store.row))
    {
      hide Decide, Apply, Holds, Pristine, DecodesWhatItEncodes, CalledFor;
      if CommandsMatchLog() && InSync() && Submittable(command, document, recordedAt) {
        SubmittableIsNew(command, document, recordedAt);
      }
      if recordedAt == "" || document == [] {
        return Failed(InvalidConfiguration);
      }
      var digest := codec.sha256(document);
      if digest != command.documentSha256 {
        return Failed(DocumentDigestMismatch);
      }
      var decided := Decide(procedure, case_, state, command);
      if decided.Err? {
        return Failed(EngineFailure);
      }
      var event := decided.value[0];
      assert decided.value == [event];
      DecisionIsCalledFor(procedure, case_, state, command);
      DecidedEventExtendsLog(procedure, case_, initial, log[..snapshot.sequence], command);
      if InSync() {
        HeldReferencesAreReadable(codec, initial, store.row, assets.objects, log);
      }
      var reference := FilingDocument(digest);
      var addsReference := reference !in snapshot.assetReferences;
      if !addsReference && digest !in assets.objects {
        return Failed(AssetStoreFailure);
      }
      var payload := codec.encode(event);
      if payload.None? {
        return Failed(EventCodecFailure);
      }
      var next := Replay(procedure, case_, state, decided.value);
      assert decided.value[..0] == [];
      if next.Err? {
        assert false;
        return Failed(EngineFailure);
      }
      r := Commit(command, recordedAt, fault, event, payload.value, addsReference, next.value);
    }

    // The database transaction and the reload after it.
    method Commit(command: SubmitFiling, recordedAt: string, fault: StoreFault, event: LegalEvent, payload: Bytes,
                  addsReference: bool, next: Session)
      returns (r: Outcome<LegalEvent>)
      requires Valid()
      requires Decide(procedure, case_, state, command) == Ok([event])
      requires codec.encode(event) == Some(payload)
      requires addsReference <==> FilingDocument(command.documentSha256) !in snapshot.assetReferences
      requires Ok(next) == Apply(procedure, case_, state, event)
      modifies this, store, assets
      ensures Valid()
      ensures r == if old(InSync()) && fault == NoFault
                      && old(forall c :: c in store.row.commands ==> c.commandId != command.submissionId)
                   then Done(event) else Failed(SessionStoreFailure)
      ensures r.Done? ==> InSync() && log == old(log) + [event] && state == next
      ensures r.Failed? ==> state == old(state) && snapshot == old(snapshot)
      ensures r.Failed? ==> log == old(log) || (fault == ReloadFails && old(InSync()) && log == old(log) + [event])
      ensures old(CommandsMatchLog()) ==> CommandsMatchLog()
      ensures SameIdentity(store.row, old(store.row))
    {
      hide Decide, Apply, Replayed, Holds, Pristine, DecodesWhatItEncodes, BatchFor, MayAppend, Appended;
      var added := if addsReference then [FilingDocument(command.documentSha256)] else [];
      var batch := BatchFor(codec, command, recordedAt, event, payload, added);
      HeldReferencesAreReadable(codec, initial, store.row, assets.objects, log);
      BatchMayBeAppended(codec, store.row, snapshot.sequence, command, recordedAt, event, added);
      CommittedSequence(codec, store.row, command, recordedAt, event, added);
      if InSync() {
        assert log[..|log|] == log;
        CommitOfDecision(codec, procedure, case_, initial, store.row, assets.objects, log, command, recordedAt, added);
      }
      var committed := store.Append(snapshot.sequence, batch, fault);
      if !committed {
        return Failed(SessionStoreFailure);
      }
      if addsReference {
        assets.Publish(command.documentSha256);
      }
      assert assets.objects == old(assets.objects) + {command.documentSha256};
      assert (log + [event])[..snapshot.sequence] == log[..snapshot.sequence];
      log := log + [event];
      if fault == ReloadFails {
        return Failed(SessionStoreFailure);
      }
      state := next;
      snapshot := store.row;
      assert log[..|log|] == log;
      return Done(event);
    }
  }

  predicate UsesCanonicalBasis(basis: seq<AuthorityRef>) {
    exists a :: a in basis && a.provenance.Some?
  }

  predicate UsesCanonicalAuthority(procedure: Procedure) {
    var rule := procedure.rule;
    || UsesCanonicalBasis([rule.filingAuthority.primary] + rule.filingAuthority.supporting)
    || UsesCanonicalBasis([rule.actorAuthority.primary] + rule.actorAuthority.supporting)
    || UsesCanonicalBasis([rule.deficiencyAuthority.primary] + rule.deficiencyAuthority.supporting)
  }

  ghost predicate ReopenConfigured(procedure: Procedure, case_: Case, initial: Session, engineRevision: string,
                             pins: seq<RevisionPin>)
  {
    engineRevision != "" && pins != [] && !UsesCanonicalAuthority(procedure) && Pristine(procedure, case_, initial)
  }

  ghost predicate PinnedAs(row: Snapshot, engineRevision: string, pins: seq<RevisionPin>) {
    row.engineRevision == engineRevision && row.pins == Sort(pins, PinLeq) && row.authorityContract == LegacyV1
  }

  // Nothing a procedure cites comes from a catalog.
  ghost predicate CitesNoCatalog(basis: AuthorityBasis) {
    basis.primary.provenance.None?
    && forall i :: 0 <= i < |basis.supporting| ==> basis.supporting[i].provenance.None?
  }

  // A named session of this case under this procedure in which nothing was filed yet.
  ghost predicate BeforeFiling(procedure: Procedure, case_: Case, session: Session) {
    exists id :: id != "" && case_.procedureId == procedure.id
      && session == Session(id, procedure.id, case_.id, AwaitingInitiatingFiling, 1, None, None, [])
  }

  lemma {:induction false} ConfiguredExactlyWhen(procedure: Procedure, case_: Case, initial: Session,
                                                 engineRevision: string, pins: seq<RevisionPin>)
    ensures ReopenConfigured(procedure, case_, initial, engineRevision, pins) <==>
            && engineRevision != "" && |pins| > 0 && BeforeFiling(procedure, case_, initial)
            && CitesNoCatalog(procedure.rule.filingAuthority) && CitesNoCatalog(procedure.rule.actorAuthority)
            && CitesNoCatalog(procedure.rule.deficiencyAuthority)
  {
    if Pristine(procedure, case_, initial) {
      assert initial == Session(initial.id, procedure.id, case_.id, AwaitingInitiatingFiling, 1, None, None, []);
    }
    assert Pristine(procedure, case_, initial) <==> BeforeFiling(procedure, case_, initial);
    hide Pristine, BeforeFiling;
    NoCatalogExactlyWhen(procedure.rule.filingAuthority);
    NoCatalogExactlyWhen(procedure.rule.actorAuthority);
    NoCatalogExactlyWhen(procedure.rule.deficiencyAuthority);
    hide CitesNoCatalog, UsesCanonicalBasis;
  }

  lemma NoCatalogExactlyWhen(basis: AuthorityBasis)
    ensures CitesNoCatalog(basis) <==> !UsesCanonicalBasis([basis.primary] + basis.supporting)
  {
    var all := [basis.primary] + basis.supporting;
    assert all[0] in all;
    assert forall i :: 0 <= i < |basis.supporting| ==> all[i + 1] == basis.supporting[i] && all[i + 1] in all;
  }

  // As many of each pin as expected, in the order of their packs.
  ghost predicate SamePins(stored: seq<RevisionPin>, expected: seq<RevisionPin>) {
    && multiset(stored) == multiset(expected)
    && forall i, j :: 0 <= i < j < |stored| ==> StringLeq(stored[i].packId, stored[j].packId)
  }

  lemma PinnedPins(row: Snapshot, engineRevision: string, pins: seq<RevisionPin>)
    ensures PinnedAs(row, engineRevision, pins) ==>
              row.engineRevision == engineRevision && row.authorityContract == LegacyV1 && SamePins(row.pins, pins)
  {
    PinsCompare();
    SortSorts(pins, PinLeq);
  }

  // With one pin for each pack the stored identity matches exactly when revision, contract and pins
  // are the expected ones.
  lemma {:induction false} PinnedExactlyWhen(row: Snapshot, engineRevision: string, pins: seq<RevisionPin>)
    requires forall i, j :: 0 <= i < j < |pins| ==> pins[i].packId != pins[j].packId
    ensures PinnedAs(row, engineRevision, pins) <==>
            row.engineRevision == engineRevision && row.authorityContract == LegacyV1 && SamePins(row.pins, pins)
  {
    PinnedPins(row, engineRevision, pins);
    if SamePins(row.pins, pins) {
      PinsCompare();
      SortSorts(pins, PinLeq);
      SortKeepsDistinct(pins, PinLeq);
      var sorted := Sort(pins, PinLeq);
      forall x ensures x in row.pins <==> x in sorted {
        assert x in multiset(row.pins) <==> x in multiset(pins);
      }
      forall x, y | x in sorted && y in sorted && PinLeq(x, y) && PinLeq(y, x) ensures x == y {
        StringLeqLaws(x.packId, y.packId, "");
        var i :| 0 <= i < |pins| && pins[i] == x;
        var j :| 0 <= j < |pins| && pins[j] == y;
      }
      SamePinsAreDistinct(row.pins, pins);
      SortedEnumerationIsUnique(sorted, row.pins, PinLeq);
    }
  }

  lemma SamePinsAreDistinct(a: seq<RevisionPin>, b: seq<RevisionPin>)
    requires multiset(a) == multiset(b) && Distinct(b)
    ensures Distinct(a)
  {
    forall i, j | 0 <= i < j < |a| && a[i] == a[j] ensures false {
      CountsTwice(a, i, j);
      DistinctCountsOnce(b, a[i]);
    }
  }

  lemma CountsTwice(s: seq<RevisionPin>, i: int, j: int)
    requires 0 <= i < j < |s| && s[i] == s[j]
    ensures multiset(s)[s[i]] >= 2
  {
    assert s == s[..j] + [s[j]] + s[j + 1..];
    assert s[..j][i] in multiset(s[..j]);
  }

  lemma {:induction false} DistinctCountsOnce(s: seq<RevisionPin>, x: RevisionPin)
    requires Distinct(s)
    ensures multiset(s)[x] <= 1
    decreases |s|
  {
    if s != [] {
      assert s == [s[0]] + s[1..];
      DistinctCountsOnce(s[1..], x);
      assert s[0] !in s[1..];
    }
  }

  // Succeeds exactly when the stored revision, contract and pins are the expected ones and the
  // database holds a replayable log whose documents the asset store still has; the controller then
  // resumes at that log's session. Any other stored identity is a corrupt session.
  method Reopen(procedure: Procedure, case_: Case, initial: Session, codec: Codec, store: SessionStore,
                assets: AssetStore, engineRevision: string, pins: seq<RevisionPin>)
    returns (r: Outcome<SessionController>)
    requires DecodesWhatItEncodes(codec)
    modifies assets
    ensures r.Done? <==> ReopenConfigured(procedure, case_, initial, engineRevision, pins)
                         && store.row.engineRevision == engineRevision && store.row.authorityContract == LegacyV1
                         && store.row.pins == Sort(pins, PinLeq)
                         && exists log :: Holds(codec, initial, store.row, old(assets.objects), log)
                                          && Replayed(procedure, case_, initial, log).Ok?
    ensures r.Done? ==> SamePins(store.row.pins, pins)
    ensures r == Failed(InvalidConfiguration) <==>
            engineRevision == "" || pins == [] || !BeforeFiling(procedure, case_, initial)
            || !CitesNoCatalog(procedure.rule.filingAuthority) || !CitesNoCatalog(procedure.rule.actorAuthority)
            || !CitesNoCatalog(procedure.rule.deficiencyAuthority)
    ensures r != Failed(InvalidConfiguration)
            && (forall a :: a in store.row.assetReferences ==> a.digest in old(assets.objects))
            && !(store.row.engineRevision == engineRevision && store.row.authorityContract == LegacyV1
                 && SamePins(store.row.pins, pins)) ==>
              r == Failed(CorruptSession)
    ensures r != Failed(InvalidConfiguration)
            && (exists a :: a in store.row.assetReferences && a.digest !in old(assets.objects)) ==>
              r == Failed(CorruptSession) && assets.objects == old(assets.objects)
    ensures r.Done? ==>
              && fresh(r.value) && r.value.Valid() && r.value.InSync()
              && r.value.store == store && r.value.assets == assets
              && r.value.procedure == procedure && r.value.case_ == case_ && r.value.initial == initial
              && r.value.codec == codec
              && Holds(codec, initial, store.row, old(assets.objects), r.value.log)
  {
    PinnedPins(store.row, engineRevision, pins);
    ConfiguredExactlyWhen(procedure, case_, initial, engineRevision, pins);
    hide CitesNoCatalog, UsesCanonicalAuthority, SamePins, BeforeFiling;
    hide Replayed, Pristine, DecodesWhatItEncodes, DerivedDocket;
    if engineRevision == "" || pins == [] || UsesCanonicalAuthority(procedure)
       || !Pristine(procedure, case_, initial) {
      return Failed(InvalidConfiguration);
    }
    ghost var before := assets.objects;
    var recovered := assets.Recover(store.row.assetReferences);
    if !recovered {
      return Failed(CorruptSession);
    }
    var sorted := Sort(pins, PinLeq);
    if store.row.engineRevision != engineRevision || store.row.pins != sorted
       || store.row.authorityContract != LegacyV1 {
      return Failed(CorruptSession);
    }
    assert forall log :: Holds(codec, initial, store.row, before, log) <==>
        Holds(codec, initial, store.row, assets.objects, log);
    var replayed := ReplaySnapshot(codec, procedure, case_, initial, store.row, assets.objects);
    if replayed.Failed? {
      return Failed(replayed.error);
    }
    ghost var log :| Holds(codec, initial, store.row, assets.objects, log)
        && Replayed(procedure, case_, initial, log).Ok?;
    var controller := new SessionController.Restored(procedure, case_, initial, codec, store, assets, replayed.value,
                                                     log);
    return Done(controller);
  }

  datatype Submission = Submission(command: SubmitFiling, document: Bytes, recordedAt: string, fault: StoreFault)

  // Any run of submissions, with rejections, deficiencies, acceptances and store faults in any
  // order, leaves a session that reopens to exactly the events the database took, and to the state
  // still in memory unless a reload had failed.
  method ResumeAfterRun(controller: SessionController, run: seq<Submission>, engineRevision: string,
                        pins: seq<RevisionPin>)
    returns (r: Outcome<SessionController>)
    requires controller.Valid()
    requires ReopenConfigured(controller.procedure, controller.case_, controller.initial, engineRevision, pins)
    requires PinnedAs(controller.store.row, engineRevision, pins)
    modifies controller, controller.store, controller.assets
    ensures controller.Valid() && r.Done? && r.value.Valid()
    ensures r.value.log == controller.log && old(controller.log) <= controller.log
    ensures Ok(r.value.state) == Replayed(controller.procedure, controller.case_, controller.initial, controller.log)
    ensures controller.InSync() ==> r.value.state == controller.state && r.value.snapshot == controller.snapshot
    ensures fresh(r.value) && r.value.InSync() && r.value.store == controller.store
            && r.value.assets == controller.assets
    ensures r.value.procedure == controller.procedure && r.value.case_ == controller.case_
            && r.value.initial == controller.initial && r.value.codec == controller.codec
    ensures PinnedAs(r.value.store.row, engineRevision, pins)
    ensures old(controller.CommandsMatchLog()) ==> r.value.CommandsMatchLog()
  {
    hide Replayed, Holds, Pristine, DecodesWhatItEncodes, Decide, Apply;
    for i := 0 to |run|
      invariant controller.Valid() && old(controller.log) <= controller.log
      invariant PinnedAs(controller.store.row, engineRevision, pins)
      invariant old(controller.CommandsMatchLog()) ==> controller.CommandsMatchLog()
    {
      var s := run[i];
      var _ := controller.Submit(s.command, s.document, s.recordedAt, s.fault);
    }
    ghost var held := controller.assets.objects;
    r := Reopen(controller.procedure, controller.case_, controller.initial, controller.codec, controller.store,
                controller.assets, engineRevision, pins);
    HeldLogIsUnique(controller.codec, controller.initial, controller.store.row, held, controller.log, r.value.log);
    assert r.value.log[..|r.value.log|] == r.value.log;
  }

  // Runs and reopenings in turn: every reopening succeeds and goes on with the same log, and no
  // command is ever stored twice.
  method ResumeAfterRuns(controller: SessionController, runs: seq<seq<Submission>>, engineRevision: string,
                         pins: seq<RevisionPin>)
    returns (last: SessionController)
    requires controller.Valid() && controller.CommandsMatchLog()
    requires ReopenConfigured(controller.procedure, controller.case_, controller.initial, engineRevision, pins)
    requires PinnedAs(controller.store.row, engineRevision, pins)
    modifies controller, controller.store, controller.assets
    ensures last.Valid() && last.CommandsMatchLog() && last.store == controller.store
    ensures old(controller.log) <= last.log
    ensures runs != [] ==> last.InSync()
  {
    hide Replayed, Holds, Pristine, DecodesWhatItEncodes, Decide, Apply, ReopenConfigured, PinnedAs;
    last := controller;
    for i := 0 to |runs|
      invariant last == controller || fresh(last)
      invariant last.Valid() && last.CommandsMatchLog() && old(controller.log) <= last.log
      invariant last.store == controller.store && last.assets == controller.assets
      invariant last.procedure == controller.procedure && last.case_ == controller.case_
                && last.initial == controller.initial
      invariant PinnedAs(last.store.row, engineRevision, pins)
      invariant i > 0 ==> last.InSync()
    {
      var reopened := ResumeAfterRun(last, runs[i], engineRevision, pins);
      last := reopened.value;
    }
  }
}

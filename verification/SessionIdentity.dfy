/** The bytes hashed into session identities and into the digest of a workflow's legal state. */
module SessionIdentity {
  import opened Framing
  import opened SessionStorage

  // Identifiers that the engine holds as plain bytes.
  datatype PackRevision = PackRevision(id: Octets, version: Octets, digest: Octets)

  datatype WorkflowIdentity = WorkflowIdentity(closure: seq<PackRevision>, caseId: Octets, workflowId: Octets)

  datatype OralIdentity = OralIdentity(closure: seq<PackRevision>, caseId: Octets, argumentId: Octets,
                                       legalState: string)

  datatype AccessIdentity = AccessIdentity(revision: PackRevision, caseId: Octets)

  const WORKFLOW_SESSION_DOMAIN := "appellate-workbench-local-workflow-session-v1"
  const ORAL_SESSION_DOMAIN := "appellate-workbench-local-oral-session-v1"
  const LEGAL_STATE_DOMAIN := "appellate-workbench-workflow-legal-state-v2"
  const RECORD_ACCESS_DOMAIN := "appellate-workbench-record-access-session-v1"

  // ---- What is hashed ----

  function EncodeRevision(r: PackRevision): Octets {
    Frame(r.id) + (Frame(r.version) + Frame(r.digest))
  }

  function WorkflowBytes(i: WorkflowIdentity): Octets {
    TextFrame(WORKFLOW_SESSION_DOMAIN) + (Counted(i.closure, EncodeRevision) + (Frame(i.caseId) + Frame(i.workflowId)))
  }

  function OralBytes(i: OralIdentity): Octets {
    TextFrame(ORAL_SESSION_DOMAIN)
    + (Counted(i.closure, EncodeRevision) + (Frame(i.caseId) + (Frame(i.argumentId) + TextFrame(i.legalState))))
  }

  function AccessBytes(i: AccessIdentity): Octets {
    TextFrame(RECORD_ACCESS_DOMAIN) + (EncodeRevision(i.revision) + Frame(i.caseId))
  }

  // A signed 64-bit number as the unsigned one with the same bits.
  function Unsigned(v: int): nat
    requires FitsInt64(v)
  {
    if v < 0 then v + TWO_TO_THE_64 else v
  }

  predicate FitsInt64(v: int) {
    -(TWO_TO_THE_64 / 2) <= v < TWO_TO_THE_64 / 2
  }

  function Signed(v: int): Octets {
    if FitsInt64(v) then U64(Unsigned(v)) else []
  }

  function ContractNumber(c: AuthorityContract): nat {
    match c case LegacyV1 => 0 case CanonicalV2 => 1
  }

  function EncodePin(p: RevisionPin): Octets {
    TextFrame(p.packId) + (TextFrame(p.version) + TextFrame(p.digest))
  }

  function EncodeCommand(c: StoredCommand): Octets {
    TextFrame(c.commandId) + (Signed(c.expectedSequence) + (Frame(c.payload) + TextFrame(c.recordedAt)))
  }

  function EncodeEvent(e: StoredEvent): Octets {
    Signed(e.sequence) + (TextFrame(e.eventType) + (Frame(e.payload) + TextFrame(e.authorityId)))
  }

  function EncodeDocket(d: DocketEntry): Octets {
    TextFrame(d.entryId) + (Signed(d.eventSequence) + (TextFrame(d.title) + TextFrame(d.status)))
  }

  function EncodeAsset(a: AssetReference): Octets {
    TextFrame(a.digest) + TextFrame(a.purpose)
  }

  function EncodeHead(s: Snapshot): Octets {
    TextFrame(s.sessionId)
    + (TextFrame(s.engineRevision)
       + (U64(ContractNumber(s.authorityContract)) + (Signed(s.sequence) + TextFrame(s.createdAt))))
  }

  function EncodeRows(s: Snapshot): Octets {
    Counted(s.pins, EncodePin)
    + (Counted(s.commands, EncodeCommand)
       + (Counted(s.events, EncodeEvent) + (Counted(s.docket, EncodeDocket) + Counted(s.assetReferences, EncodeAsset))))
  }

  function LegalStateBytes(s: Snapshot): Octets {
    TextFrame(LEGAL_STATE_DOMAIN) + (EncodeHead(s) + EncodeRows(s))
  }

  // ---- Sizes the machine can hold ----

  predicate FitsBytes(b: Octets) {
    |b| < TWO_TO_THE_64
  }

  predicate FitsRevision(r: PackRevision) {
    FitsBytes(r.id) && FitsBytes(r.version) && FitsBytes(r.digest)
  }

  predicate FitsPin(p: RevisionPin) {
    FitsText(p.packId) && FitsText(p.version) && FitsText(p.digest)
  }

  predicate FitsCommand(c: StoredCommand) {
    FitsText(c.commandId) && FitsInt64(c.expectedSequence) && FitsBytes(c.payload) && FitsText(c.recordedAt)
  }

  predicate FitsEvent(e: StoredEvent) {
    FitsInt64(e.sequence) && FitsText(e.eventType) && FitsBytes(e.payload) && FitsText(e.authorityId)
  }

  predicate FitsDocket(d: DocketEntry) {
    FitsText(d.entryId) && FitsInt64(d.eventSequence) && FitsText(d.title) && FitsText(d.status)
  }

  predicate FitsAsset(a: AssetReference) {
    FitsText(a.digest) && FitsText(a.purpose)
  }

  ghost predicate FitsSnapshot(s: Snapshot) {
    && FitsText(s.sessionId) && FitsText(s.engineRevision) && FitsInt64(s.sequence) && FitsText(s.createdAt)
    && AllFit(s.pins, FitsPin)
    && AllFit(s.commands, FitsCommand)
    && AllFit(s.events, FitsEvent)
    && AllFit(s.docket, FitsDocket)
    && AllFit(s.assetReferences, FitsAsset)
  }

  ghost predicate FitsWorkflow(i: WorkflowIdentity) {
    AllFit(i.closure, FitsRevision) && FitsBytes(i.caseId) && FitsBytes(i.workflowId)
  }

  ghost predicate FitsOral(i: OralIdentity) {
    AllFit(i.closure, FitsRevision) && FitsBytes(i.caseId) && FitsBytes(i.argumentId) && FitsText(i.legalState)
  }

  // ---- Every row is uniquely decodable ----

  lemma Regrouped(a: Octets, b: Octets, r: Octets)
    ensures (a + b) + r == a + (b + r)
  {
  }

  lemma SignedCancels(a: int, b: int, r: Octets, s: Octets)
    requires FitsInt64(a) && FitsInt64(b) && Signed(a) + r == Signed(b) + s
    ensures a == b && r == s
  {
    U64Cancels(Unsigned(a), Unsigned(b), r, s);
  }

  lemma RevisionCancels(x: PackRevision, y: PackRevision, r: Octets, s: Octets)
    requires FitsRevision(x) && FitsRevision(y) && EncodeRevision(x) + r == EncodeRevision(y) + s
    ensures x == y && r == s
  {
    hide Frame;
    Regrouped(Frame(x.id), Frame(x.version) + Frame(x.digest), r);
    Regrouped(Frame(y.id), Frame(y.version) + Frame(y.digest), s);
    Regrouped(Frame(x.version), Frame(x.digest), r);
    Regrouped(Frame(y.version), Frame(y.digest), s);
    FrameCancels(x.id, y.id, Frame(x.version) + (Frame(x.digest) + r), Frame(y.version) + (Frame(y.digest) + s));
    FrameCancels(x.version, y.version, Frame(x.digest) + r, Frame(y.digest) + s);
    FrameCancels(x.digest, y.digest, r, s);
  }

  // Four parts one after the other, then whatever follows.
  lemma FourParts(a: Octets, b: Octets, c: Octets, d: Octets, r: Octets)
    ensures (a + (b + (c + d))) + r == a + (b + (c + (d + r)))
  {
    Regrouped(a, b + (c + d), r);
    Regrouped(b, c + d, r);
    Regrouped(c, d, r);
  }

  lemma PinCancels(x: RevisionPin, y: RevisionPin, r: Octets, s: Octets)
    requires FitsPin(x) && FitsPin(y) && EncodePin(x) + r == EncodePin(y) + s
    ensures x == y && r == s
  {
    hide TextFrame, FitsText;
    Regrouped(TextFrame(x.packId), TextFrame(x.version) + TextFrame(x.digest), r);
    Regrouped(TextFrame(y.packId), TextFrame(y.version) + TextFrame(y.digest), s);
    Regrouped(TextFrame(x.version), TextFrame(x.digest), r);
    Regrouped(TextFrame(y.version), TextFrame(y.digest), s);
    TextFrameCancels(x.packId, y.packId, TextFrame(x.version) + (TextFrame(x.digest) + r),
                     TextFrame(y.version) + (TextFrame(y.digest) + s));
    TextFrameCancels(x.version, y.version, TextFrame(x.digest) + r, TextFrame(y.digest) + s);
    TextFrameCancels(x.digest, y.digest, r, s);
  }

  lemma CommandCancels(x: StoredCommand, y: StoredCommand, r: Octets, s: Octets)
    requires FitsCommand(x) && FitsCommand(y) && EncodeCommand(x) + r == EncodeCommand(y) + s
    ensures x == y && r == s
  {
    hide TextFrame, FitsText, Signed, Frame;
    var (x1, x2, x3, x4) := (TextFrame(x.commandId), Signed(x.expectedSequence), Frame(x.payload),
                             TextFrame(x.recordedAt));
    var (y1, y2, y3, y4) := (TextFrame(y.commandId), Signed(y.expectedSequence), Frame(y.payload),
                             TextFrame(y.recordedAt));
    FourParts(x1, x2, x3, x4, r);
    FourParts(y1, y2, y3, y4, s);
    TextFrameCancels(x.commandId, y.commandId, x2 + (x3 + (x4 + r)), y2 + (y3 + (y4 + s)));
    SignedCancels(x.expectedSequence, y.expectedSequence, x3 + (x4 + r), y3 + (y4 + s));
    FrameCancels(x.payload, y.payload, x4 + r, y4 + s);
    TextFrameCancels(x.recordedAt, y.recordedAt, r, s);
  }

  lemma EventCancels(x: StoredEvent, y: StoredEvent, r: Octets, s: Octets)
    requires FitsEvent(x) && FitsEvent(y) && EncodeEvent(x) + r == EncodeEvent(y) + s
    ensures x == y && r == s
  {
    hide TextFrame, FitsText, Signed, Frame;
    var (x1, x2, x3, x4) := (Signed(x.sequence), TextFrame(x.eventType), Frame(x.payload), TextFrame(x.authorityId));
    var (y1, y2, y3, y4) := (Signed(y.sequence), TextFrame(y.eventType), Frame(y.payload), TextFrame(y.authorityId));
    FourParts(x1, x2, x3, x4, r);
    FourParts(y1, y2, y3, y4, s);
    SignedCancels(x.sequence, y.sequence, x2 + (x3 + (x4 + r)), y2 + (y3 + (y4 + s)));
    TextFrameCancels(x.eventType, y.eventType, x3 + (x4 + r), y3 + (y4 + s));
    FrameCancels(x.payload, y.payload, x4 + r, y4 + s);
    TextFrameCancels(x.authorityId, y.authorityId, r, s);
  }

  lemma DocketCancels(x: DocketEntry, y: DocketEntry, r: Octets, s: Octets)
    requires FitsDocket(x) && FitsDocket(y) && EncodeDocket(x) + r == EncodeDocket(y) + s
    ensures x == y && r == s
  {
    hide TextFrame, FitsText, Signed;
    var (x1, x2, x3, x4) := (TextFrame(x.entryId), Signed(x.eventSequence), TextFrame(x.title), TextFrame(x.status));
    var (y1, y2, y3, y4) := (TextFrame(y.entryId), Signed(y.eventSequence), TextFrame(y.title), TextFrame(y.status));
    FourParts(x1, x2, x3, x4, r);
    FourParts(y1, y2, y3, y4, s);
    TextFrameCancels(x.entryId, y.entryId, x2 + (x3 + (x4 + r)), y2 + (y3 + (y4 + s)));
    SignedCancels(x.eventSequence, y.eventSequence, x3 + (x4 + r), y3 + (y4 + s));
    TextFrameCancels(x.title, y.title, x4 + r, y4 + s);
    TextFrameCancels(x.status, y.status, r, s);
  }

  lemma AssetCancels(x: AssetReference, y: AssetReference, r: Octets, s: Octets)
    requires FitsAsset(x) && FitsAsset(y) && EncodeAsset(x) + r == EncodeAsset(y) + s
    ensures x == y && r == s
  {
    hide TextFrame, FitsText;
    Regrouped(TextFrame(x.digest), TextFrame(x.purpose), r);
    Regrouped(TextFrame(y.digest), TextFrame(y.purpose), s);
    TextFrameCancels(x.digest, y.digest, TextFrame(x.purpose) + r, TextFrame(y.purpose) + s);
    TextFrameCancels(x.purpose, y.purpose, r, s);
  }

  lemma EveryRowCancels()
    ensures Cancels(EncodeRevision, FitsRevision)
    ensures Cancels(EncodePin, FitsPin) && Cancels(EncodeCommand, FitsCommand) && Cancels(EncodeEvent, FitsEvent)
    ensures Cancels(EncodeDocket, FitsDocket) && Cancels(EncodeAsset, FitsAsset)
  {
    hide EncodeRevision, EncodePin, EncodeCommand, EncodeEvent, EncodeDocket, EncodeAsset, FitsRevision, FitsPin,
         FitsCommand, FitsEvent, FitsDocket, FitsAsset;
    forall x, y, r, s | FitsRevision(x) && FitsRevision(y) && EncodeRevision(x) + r == EncodeRevision(y) + s
      ensures x == y && r == s { RevisionCancels(x, y, r, s); }
    forall x, y, r, s | FitsPin(x) && FitsPin(y) && EncodePin(x) + r == EncodePin(y) + s
      ensures x == y && r == s { PinCancels(x, y, r, s); }
    forall x, y, r, s | FitsCommand(x) && FitsCommand(y) && EncodeCommand(x) + r == EncodeCommand(y) + s
      ensures x == y && r == s { CommandCancels(x, y, r, s); }
    forall x, y, r, s | FitsEvent(x) && FitsEvent(y) && EncodeEvent(x) + r == EncodeEvent(y) + s
      ensures x == y && r == s { EventCancels(x, y, r, s); }
    forall x, y, r, s | FitsDocket(x) && FitsDocket(y) && EncodeDocket(x) + r == EncodeDocket(y) + s
      ensures x == y && r == s { DocketCancels(x, y, r, s); }
    forall x, y, r, s | FitsAsset(x) && FitsAsset(y) && EncodeAsset(x) + r == EncodeAsset(y) + s
      ensures x == y && r == s { AssetCancels(x, y, r, s); }
  }

  // ---- Main results ----

  lemma HeadCancels(x: Snapshot, y: Snapshot, r: Octets, s: Octets)
    requires FitsSnapshot(x) && FitsSnapshot(y) && EncodeHead(x) + r == EncodeHead(y) + s
    ensures x.sessionId == y.sessionId && x.engineRevision == y.engineRevision && x.sequence == y.sequence
    ensures x.authorityContract == y.authorityContract && x.createdAt == y.createdAt && r == s
  {
    hide TextFrame, FitsText, Signed, U64, AllFit;
    var (x1, x2, x3, x4, x5) := (TextFrame(x.sessionId), TextFrame(x.engineRevision),
                                 U64(ContractNumber(x.authorityContract)), Signed(x.sequence), TextFrame(x.createdAt));
    var (y1, y2, y3, y4, y5) := (TextFrame(y.sessionId), TextFrame(y.engineRevision),
                                 U64(ContractNumber(y.authorityContract)), Signed(y.sequence), TextFrame(y.createdAt));
    FourParts(x1, x2, x3, x4 + x5, r);
    FourParts(y1, y2, y3, y4 + y5, s);
    Regrouped(x4, x5, r);
    Regrouped(y4, y5, s);
    TextFrameCancels(x.sessionId, y.sessionId, x2 + (x3 + (x4 + (x5 + r))), y2 + (y3 + (y4 + (y5 + s))));
    TextFrameCancels(x.engineRevision, y.engineRevision, x3 + (x4 + (x5 + r)), y3 + (y4 + (y5 + s)));
    U64Cancels(ContractNumber(x.authorityContract), ContractNumber(y.authorityContract), x4 + (x5 + r), y4 + (y5 + s));
    SignedCancels(x.sequence, y.sequence, x5 + r, y5 + s);
    TextFrameCancels(x.createdAt, y.createdAt, r, s);
  }

  lemma RowsDetermine(x: Snapshot, y: Snapshot)
    requires FitsSnapshot(x) && FitsSnapshot(y) && EncodeRows(x) == EncodeRows(y)
    ensures x.pins == y.pins && x.commands == y.commands && x.events == y.events && x.docket == y.docket
    ensures x.assetReferences == y.assetReferences
  {
    hide Counted, Cancels, FitsText, AllFit;
    EveryRowCancels();
    var (x1, x2, x3, x4, x5) := (Counted(x.pins, EncodePin), Counted(x.commands, EncodeCommand),
                                 Counted(x.events, EncodeEvent), Counted(x.docket, EncodeDocket),
                                 Counted(x.assetReferences, EncodeAsset));
    var (y1, y2, y3, y4, y5) := (Counted(y.pins, EncodePin), Counted(y.commands, EncodeCommand),
                                 Counted(y.events, EncodeEvent), Counted(y.docket, EncodeDocket),
                                 Counted(y.assetReferences, EncodeAsset));
    CountedCancels(x.pins, y.pins, EncodePin, FitsPin, x2 + (x3 + (x4 + x5)), y2 + (y3 + (y4 + y5)));
    CountedCancels(x.commands, y.commands, EncodeCommand, FitsCommand, x3 + (x4 + x5), y3 + (y4 + y5));
    CountedCancels(x.events, y.events, EncodeEvent, FitsEvent, x4 + x5, y4 + y5);
    CountedCancels(x.docket, y.docket, EncodeDocket, FitsDocket, x5, y5);
    assert x5 == x5 + [] && y5 == y5 + [];
    CountedCancels(x.assetReferences, y.assetReferences, EncodeAsset, FitsAsset, [], []);
  }

  // The hashed bytes determine every field of the snapshot.
  lemma {:induction false} LegalStateBytesDetermineTheSnapshot(x: Snapshot, y: Snapshot)
    requires FitsSnapshot(x) && FitsSnapshot(y) && LegalStateBytes(x) == LegalStateBytes(y)
    ensures x == y
  {
    hide TextFrame, EncodeHead, EncodeRows, FitsSnapshot, FitsText;
    DomainsFit();
    TextFrameCancels(LEGAL_STATE_DOMAIN, LEGAL_STATE_DOMAIN, EncodeHead(x) + EncodeRows(x),
                     EncodeHead(y) + EncodeRows(y));
    HeadCancels(x, y, EncodeRows(x), EncodeRows(y));
    RowsDetermine(x, y);
  }

  lemma DomainsFit()
    ensures FitsText(WORKFLOW_SESSION_DOMAIN) && FitsText(ORAL_SESSION_DOMAIN)
    ensures FitsText(LEGAL_STATE_DOMAIN) && FitsText(RECORD_ACCESS_DOMAIN)
  {
    hide Utf8;
    assert |WORKFLOW_SESSION_DOMAIN| == 45 && |ORAL_SESSION_DOMAIN| == 41;
    assert |LEGAL_STATE_DOMAIN| == 43 && |RECORD_ACCESS_DOMAIN| == 44;
  }

  lemma {:induction false} WorkflowBytesDetermineTheIdentity(x: WorkflowIdentity, y: WorkflowIdentity)
    requires FitsWorkflow(x) && FitsWorkflow(y) && WorkflowBytes(x) == WorkflowBytes(y)
    ensures x == y
  {
    hide TextFrame, Counted, Frame, Cancels, AllFit, FitsText;
    DomainsFit();
    EveryRowCancels();
    var (x1, x2, x3) := (Counted(x.closure, EncodeRevision), Frame(x.caseId), Frame(x.workflowId));
    var (y1, y2, y3) := (Counted(y.closure, EncodeRevision), Frame(y.caseId), Frame(y.workflowId));
    TextFrameCancels(WORKFLOW_SESSION_DOMAIN, WORKFLOW_SESSION_DOMAIN, x1 + (x2 + x3), y1 + (y2 + y3));
    CountedCancels(x.closure, y.closure, EncodeRevision, FitsRevision, x2 + x3, y2 + y3);
    FrameCancels(x.caseId, y.caseId, x3, y3);
    assert x3 == x3 + [] && y3 == y3 + [];
    FrameCancels(x.workflowId, y.workflowId, [], []);
  }

  lemma {:induction false} OralBytesDetermineTheIdentity(x: OralIdentity, y: OralIdentity)
    requires FitsOral(x) && FitsOral(y) && OralBytes(x) == OralBytes(y)
    ensures x == y
  {
    hide TextFrame, Counted, Frame, Cancels, AllFit, FitsText;
    DomainsFit();
    EveryRowCancels();
    var (x1, x2, x3, x4) := (Counted(x.closure, EncodeRevision), Frame(x.caseId), Frame(x.argumentId),
                             TextFrame(x.legalState));
    var (y1, y2, y3, y4) := (Counted(y.closure, EncodeRevision), Frame(y.caseId), Frame(y.argumentId),
                             TextFrame(y.legalState));
    TextFrameCancels(ORAL_SESSION_DOMAIN, ORAL_SESSION_DOMAIN, x1 + (x2 + (x3 + x4)), y1 + (y2 + (y3 + y4)));
    CountedCancels(x.closure, y.closure, EncodeRevision, FitsRevision, x2 + (x3 + x4), y2 + (y3 + y4));
    FrameCancels(x.caseId, y.caseId, x3 + x4, y3 + y4);
    FrameCancels(x.argumentId, y.argumentId, x4, y4);
    assert x4 == x4 + [] && y4 == y4 + [];
    TextFrameCancels(x.legalState, y.legalState, [], []);
  }

  lemma {:induction false} AccessBytesDetermineTheIdentity(x: AccessIdentity, y: AccessIdentity)
    requires FitsRevision(x.revision) && FitsBytes(x.caseId) && FitsRevision(y.revision) && FitsBytes(y.caseId)
    requires AccessBytes(x) == AccessBytes(y)
    ensures x == y
  {
    hide TextFrame, EncodeRevision, FitsText, Frame;
    DomainsFit();
    var (x1, x2) := (EncodeRevision(x.revision), Frame(x.caseId));
    var (y1, y2) := (EncodeRevision(y.revision), Frame(y.caseId));
    TextFrameCancels(RECORD_ACCESS_DOMAIN, RECORD_ACCESS_DOMAIN, x1 + x2, y1 + y2);
    RevisionCancels(x.revision, y.revision, x2, y2);
    assert x2 == x2 + [] && y2 == y2 + [];
    FrameCancels(x.caseId, y.caseId, [], []);
  }

  // What is hashed for one purpose is never hashed for another.
  lemma {:induction false} PurposesNeverCollide(w: WorkflowIdentity, o: OralIdentity, a: AccessIdentity, s: Snapshot)
    ensures WorkflowBytes(w) != OralBytes(o) && WorkflowBytes(w) != AccessBytes(a)
            && WorkflowBytes(w) != LegalStateBytes(s)
    ensures OralBytes(o) != AccessBytes(a) && OralBytes(o) != LegalStateBytes(s) && AccessBytes(a) != LegalStateBytes(s)
  {
    var w' := Counted(w.closure, EncodeRevision) + (Frame(w.caseId) + Frame(w.workflowId));
    var o' := Counted(o.closure, EncodeRevision) + (Frame(o.caseId) + (Frame(o.argumentId) + TextFrame(o.legalState)));
    var a' := EncodeRevision(a.revision) + Frame(a.caseId);
    var s' := EncodeHead(s) + EncodeRows(s);
    DomainsFit();
    DomainsDiffer();
    hide Counted, Frame, TextFrame, FitsText, EncodeRevision, EncodeHead, EncodeRows;
    DifferentDomains(WORKFLOW_SESSION_DOMAIN, ORAL_SESSION_DOMAIN, w', o');
    DifferentDomains(WORKFLOW_SESSION_DOMAIN, RECORD_ACCESS_DOMAIN, w', a');
    DifferentDomains(WORKFLOW_SESSION_DOMAIN, LEGAL_STATE_DOMAIN, w', s');
    DifferentDomains(ORAL_SESSION_DOMAIN, RECORD_ACCESS_DOMAIN, o', a');
    DifferentDomains(ORAL_SESSION_DOMAIN, LEGAL_STATE_DOMAIN, o', s');
    DifferentDomains(RECORD_ACCESS_DOMAIN, LEGAL_STATE_DOMAIN, a', s');
  }

  lemma DomainsDiffer()
    ensures WORKFLOW_SESSION_DOMAIN != ORAL_SESSION_DOMAIN && WORKFLOW_SESSION_DOMAIN != RECORD_ACCESS_DOMAIN
    ensures WORKFLOW_SESSION_DOMAIN != LEGAL_STATE_DOMAIN && ORAL_SESSION_DOMAIN != RECORD_ACCESS_DOMAIN
    ensures ORAL_SESSION_DOMAIN != LEGAL_STATE_DOMAIN && RECORD_ACCESS_DOMAIN != LEGAL_STATE_DOMAIN
  {
    assert |WORKFLOW_SESSION_DOMAIN| == 45 && |ORAL_SESSION_DOMAIN| == 41;
    assert |LEGAL_STATE_DOMAIN| == 43 && |RECORD_ACCESS_DOMAIN| == 44;
  }

  lemma DifferentDomains(d: string, e: string, r: Octets, s: Octets)
    requires FitsText(d) && FitsText(e) && d != e
    ensures TextFrame(d) + r != TextFrame(e) + s
  {
    if TextFrame(d) + r == TextFrame(e) + s {
      TextFrameCancels(d, e, r, s);
    }
  }

  // ---- How the bytes are put together ----

  method AppendClosure(out: ByteArray, closure: seq<PackRevision>)
    requires AllFit(closure, FitsRevision)
    modifies out
    ensures out.bytes == old(out.bytes) + Counted(closure, EncodeRevision)
  {
    hide Frame, U64;
    out.AppendUint64(|closure|);
    for i := 0 to |closure|
      invariant out.bytes == old(out.bytes) + (U64(|closure|) + Run(closure[..i], EncodeRevision))
    {
      ghost var before := out.bytes;
      assert closure[..i + 1][..i] == closure[..i] && closure[i] in closure;
      out.AppendFrame(closure[i].id);
      out.AppendFrame(closure[i].version);
      out.AppendFrame(closure[i].digest);
      assert out.bytes == before + EncodeRevision(closure[i]);
    }
    assert closure[..|closure|] == closure;
  }

  // The bytes that are hashed, in the order they are appended.
  method WorkflowSessionBytes(i: WorkflowIdentity) returns (bytes: Octets)
    requires FitsWorkflow(i)
    ensures bytes == WorkflowBytes(i)
  {
    hide Frame, TextFrame, Counted, FitsText, AllFit;
    DomainsFit();
    var framed := new ByteArray();
    framed.AppendText(WORKFLOW_SESSION_DOMAIN);
    AppendClosure(framed, i.closure);
    framed.AppendFrame(i.caseId);
    framed.AppendFrame(i.workflowId);
    bytes := framed.bytes;
  }

  method OralSessionBytes(i: OralIdentity) returns (bytes: Octets)
    requires FitsOral(i)
    ensures bytes == OralBytes(i)
  {
    hide Frame, TextFrame, Counted, FitsText, AllFit;
    DomainsFit();
    var framed := new ByteArray();
    framed.AppendText(ORAL_SESSION_DOMAIN);
    AppendClosure(framed, i.closure);
    framed.AppendFrame(i.caseId);
    framed.AppendFrame(i.argumentId);
    framed.AppendText(i.legalState);
    bytes := framed.bytes;
  }

  // The user interface frames on its own, with its own number encoder.
  method RecordAccessSessionBytes(i: AccessIdentity) returns (bytes: Octets)
    requires FitsRevision(i.revision) && FitsBytes(i.caseId)
    ensures bytes == AccessBytes(i)
  {
    hide Frame, FitsText, Utf8;
    DomainsFit();
    var hash := new ByteArray();
    hash.AddFrame(Utf8(RECORD_ACCESS_DOMAIN));
    hash.AddFrame(i.revision.id);
    hash.AddFrame(i.revision.version);
    hash.AddFrame(i.revision.digest);
    hash.AddFrame(i.caseId);
    bytes := hash.bytes;
  }

  method AppendPins(out: ByteArray, pins: seq<RevisionPin>)
    requires AllFit(pins, FitsPin)
    modifies out
    ensures out.bytes == old(out.bytes) + Counted(pins, EncodePin)
  {
    hide TextFrame, U64, FitsText;
    out.AppendUint64(|pins|);
    for i := 0 to |pins|
      invariant out.bytes == old(out.bytes) + (U64(|pins|) + Run(pins[..i], EncodePin))
    {
      ghost var before := out.bytes;
      assert pins[..i + 1][..i] == pins[..i] && pins[i] in pins;
      out.AppendText(pins[i].packId);
      out.AppendText(pins[i].version);
      out.AppendText(pins[i].digest);
      assert out.bytes == before + EncodePin(pins[i]);
    }
    assert pins[..|pins|] == pins;
  }

  method AppendSigned(out: ByteArray, v: int)
    requires FitsInt64(v)
    modifies out
    ensures out.bytes == old(out.bytes) + Signed(v)
  {
    out.AppendUint64(Unsigned(v));
  }

  method AppendCommand(out: ByteArray, row: StoredCommand)
    requires FitsCommand(row)
    modifies out
    ensures out.bytes == old(out.bytes) + EncodeCommand(row)
  {
    hide TextFrame, FitsText, Signed, Frame, FitsInt64;
    out.AppendText(row.commandId);
    AppendSigned(out, row.expectedSequence);
    out.AppendFrame(row.payload);
    out.AppendText(row.recordedAt);
  }

  method AppendCommands(out: ByteArray, commands: seq<StoredCommand>)
    requires AllFit(commands, FitsCommand)
    modifies out
    ensures out.bytes == old(out.bytes) + Counted(commands, EncodeCommand)
  {
    hide U64, EncodeCommand, FitsCommand;
    out.AppendUint64(|commands|);
    for i := 0 to |commands|
      invariant out.bytes == old(out.bytes) + (U64(|commands|) + Run(commands[..i], EncodeCommand))
    {
      assert commands[..i + 1][..i] == commands[..i] && commands[i] in commands;
      AppendCommand(out, commands[i]);
    }
    assert commands[..|commands|] == commands;
  }

  method AppendEvent(out: ByteArray, row: StoredEvent)
    requires FitsEvent(row)
    modifies out
    ensures out.bytes == old(out.bytes) + EncodeEvent(row)
  {
    hide TextFrame, FitsText, Signed, Frame, FitsInt64;
    AppendSigned(out, row.sequence);
    out.AppendText(row.eventType);
    out.AppendFrame(row.payload);
    out.AppendText(row.authorityId);
  }

  method AppendEvents(out: ByteArray, events: seq<StoredEvent>)
    requires AllFit(events, FitsEvent)
    modifies out
    ensures out.bytes == old(out.bytes) + Counted(events, EncodeEvent)
  {
    hide U64, EncodeEvent, FitsEvent;
    out.AppendUint64(|events|);
    for i := 0 to |events|
      invariant out.bytes == old(out.bytes) + (U64(|events|) + Run(events[..i], EncodeEvent))
    {
      assert events[..i + 1][..i] == events[..i] && events[i] in events;
      AppendEvent(out, events[i]);
    }
    assert events[..|events|] == events;
  }

  method AppendDocketRow(out: ByteArray, row: DocketEntry)
    requires FitsDocket(row)
    modifies out
    ensures out.bytes == old(out.bytes) + EncodeDocket(row)
  {
    hide TextFrame, FitsText, Signed, FitsInt64;
    out.AppendText(row.entryId);
    AppendSigned(out, row.eventSequence);
    out.AppendText(row.title);
    out.AppendText(row.status);
  }

  method AppendDocket(out: ByteArray, docket: seq<DocketEntry>)
    requires AllFit(docket, FitsDocket)
    modifies out
    ensures out.bytes == old(out.bytes) + Counted(docket, EncodeDocket)
  {
    hide U64, EncodeDocket, FitsDocket;
    out.AppendUint64(|docket|);
    for i := 0 to |docket|
      invariant out.bytes == old(out.bytes) + (U64(|docket|) + Run(docket[..i], EncodeDocket))
    {
      assert docket[..i + 1][..i] == docket[..i] && docket[i] in docket;
      AppendDocketRow(out, docket[i]);
    }
    assert docket[..|docket|] == docket;
  }

  method AppendAssets(out: ByteArray, assets: seq<AssetReference>)
    requires AllFit(assets, FitsAsset)
    modifies out
    ensures out.bytes == old(out.bytes) + Counted(assets, EncodeAsset)
  {
    hide TextFrame, U64, FitsText;
    out.AppendUint64(|assets|);
    for i := 0 to |assets|
      invariant out.bytes == old(out.bytes) + (U64(|assets|) + Run(assets[..i], EncodeAsset))
    {
      ghost var before := out.bytes;
      assert assets[..i + 1][..i] == assets[..i] && assets[i] in assets;
      out.AppendText(assets[i].digest);
      out.AppendText(assets[i].purpose);
      assert out.bytes == before + EncodeAsset(assets[i]);
    }
    assert assets[..|assets|] == assets;
  }

  method WorkflowLegalStateBytes(s: Snapshot) returns (bytes: Octets)
    requires FitsSnapshot(s)
    ensures bytes == LegalStateBytes(s)
  {
    hide TextFrame, FitsText, Signed, U64, Counted, AllFit;
    DomainsFit();
    var framed := new ByteArray();
    framed.AppendText(LEGAL_STATE_DOMAIN);
    ghost var domain := framed.bytes;
    framed.AppendText(s.sessionId);
    framed.AppendText(s.engineRevision);
    framed.AppendUint64(ContractNumber(s.authorityContract));
    AppendSigned(framed, s.sequence);
    framed.AppendText(s.createdAt);
    assert framed.bytes == domain + EncodeHead(s);
    ghost var head := framed.bytes;
    AppendPins(framed, s.pins);
    AppendCommands(framed, s.commands);
    AppendEvents(framed, s.events);
    AppendDocket(framed, s.docket);
    AppendAssets(framed, s.assetReferences);
    assert framed.bytes == head + EncodeRows(s);
    bytes := framed.bytes;
  }
}

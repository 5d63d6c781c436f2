/** The workspace: the record it holds, the access state of the session, and the document that is open. */
module RecordWorkspaces {
  import opened Utf16Text
  import opened RecordModel
  import opened RecordRules
  import opened RecordProjection
  import RecordValidation
  import ParentGraph

  datatype AccessProjection = AccessProjection(sessionId: Text, recordId: Text, policyId: Text, throughSequence: nat,
                                               headDigest: Text, authorizedDocumentIds: seq<Text>)

  // ---- Which access projections are applied ----

  predicate Follows(previous: AccessProjection, next: AccessProjection) {
    && next.sessionId == previous.sessionId
    && previous.throughSequence <= next.throughSequence
    && (next.throughSequence == previous.throughSequence ==> next == previous)
  }

  predicate ForPolicy(policy: DisclosurePolicy, p: AccessProjection) {
    && p.recordId == policy.recordId
    && p.policyId == policy.policyId
    && p.sessionId != []
    && LowercaseSha256(p.headDigest)
    && (p.throughSequence == 0 <==> p.headDigest == ZeroHead())
  }

  function Grants(p: AccessProjection): set<Text> {
    set id <- p.authorizedDocumentIds
  }

  predicate GrantsAreProper(r: RecordDefinition, ids: seq<Text>) {
    && (forall k :: 0 <= k < |ids| ==> ids[k] in Permitted(r.disclosures))
    && (forall j, k :: 0 <= j < k < |ids| ==> ids[j] != ids[k])
  }

  ghost predicate Applies(r: RecordDefinition, previous: Option<AccessProjection>, next: AccessProjection) {
    && r.policy.Some?
    && ForPolicy(r.policy.value, next)
    && (previous.Some? ==> Follows(previous.value, next))
    && GrantsAreProper(r, next.authorizedDocumentIds)
  }

  // One session throughout, numbers that never go back, and for equal numbers equal projections.
  ghost predicate Orderly(applied: seq<AccessProjection>) {
    forall i, j :: 0 <= i < j < |applied| ==>
      && applied[i].sessionId == applied[j].sessionId
      && applied[i].throughSequence <= applied[j].throughSequence
      && (applied[i].throughSequence == applied[j].throughSequence ==> applied[i] == applied[j])
  }

  lemma {:induction false} OrderlyStep(applied: seq<AccessProjection>, next: AccessProjection)
    requires Orderly(applied) && (applied != [] ==> Follows(applied[|applied| - 1], next))
    ensures Orderly(applied + [next])
  {
    if |applied| > 1 {
      var last := applied[|applied| - 1];
      assert forall i :: 0 <= i < |applied| - 1 ==> applied[i].throughSequence <= last.throughSequence;
    }
  }

  ghost predicate Disclosed(r: RecordDefinition, id: Text) {
    exists d :: d in r.disclosures && d.sealedDocumentId == id
  }

  // A projection for this record, under its policy: it starts at number zero with the zero digest, and
  // grants each of its documents once and only such as a disclosure seals.
  ghost predicate ProperFor(r: RecordDefinition, p: AccessProjection) {
    && r.policy.Some? && r.policy.value.recordId == p.recordId && r.policy.value.policyId == p.policyId
    && |p.sessionId| > 0
    && |p.headDigest| == 64
    && (forall c :: c in p.headDigest ==> '0' as int <= c < '0' as int + 10 || 'a' as int <= c < 'a' as int + 6)
    && (p.throughSequence > 0 <==> exists i :: 0 <= i < |p.headDigest| && p.headDigest[i] != '0' as int)
    && (forall i :: 0 <= i < |p.authorizedDocumentIds| ==> Disclosed(r, p.authorizedDocumentIds[i]))
    && (forall i, j :: 0 <= i < j < |p.authorizedDocumentIds| ==>
          p.authorizedDocumentIds[i] != p.authorizedDocumentIds[j])
  }

  // What is applied: a proper projection, the first, or one of the same session that goes further or
  // repeats the one before.
  lemma {:induction false} AppliesExactlyWhen(r: RecordDefinition, previous: Option<AccessProjection>,
                                              p: AccessProjection)
    ensures Applies(r, previous, p) <==>
            && ProperFor(r, p)
            && match previous
               case None => true
               case Some(last) =>
                 p == last || (p.sessionId == last.sessionId && p.throughSequence > last.throughSequence)
  {
    if LowercaseSha256(p.headDigest) {
      HeadIsZeroExactlyWhen(p.headDigest);
    }
    assert forall i :: 0 <= i < |p.headDigest| ==> p.headDigest[i] in p.headDigest;
    assert LowercaseSha256(p.headDigest) <==>
           && |p.headDigest| == 64
           && forall c :: c in p.headDigest ==>
                '0' as int <= c < '0' as int + 10 || 'a' as int <= c < 'a' as int + 6;
    hide LowercaseSha256, ZeroHead;
    assert forall id :: id in Permitted(r.disclosures) <==> Disclosed(r, id);
  }

  lemma HeadIsZeroExactlyWhen(head: Text)
    requires LowercaseSha256(head)
    ensures head == ZeroHead() <==> forall i :: 0 <= i < |head| ==> head[i] == '0' as int
  {
  }

  // ---- Opening a document ----

  // What the assets and the PDF engine answer: the path a deferred asset resolves to, and the pages of the file at a
  // path, zero if it cannot be loaded.
  datatype Shelf = Shelf(resolve: Document -> Option<Text>, pageCount: Text -> nat)

  ghost predicate MayRead(r: RecordDefinition, granted: set<Text>, d: Document) {
    !d.isSealed || (r.policy.Some? && d.id in granted)
  }

  ghost function Source(r: RecordDefinition, shelf: Shelf, d: Document): Text {
    if d.isSealed && r.policy.Some? && d.isDeferred then
      match shelf.resolve(d) case None => [] case Some(path) => path
    else d.filePath
  }

  ghost function OpenError(r: RecordDefinition, granted: set<Text>, shelf: Shelf, d: Document,
                           page: int): Option<ErrorCode>
  {
    if !MayRead(r, granted, d) then Some(SealedDocument)
    else if Source(r, shelf, d) == [] then Some(PdfLoadFailed)
    else
      var pages := shelf.pageCount(Source(r, shelf, d));
      if pages == 0 || (d.declaredPages > 0 && pages != d.declaredPages) then Some(PdfLoadFailed)
      else if !(0 <= page < pages) then Some(InvalidPageAnchor)
      else None
  }

  // ---- The projection, built in loops ----

  method CollectDocuments(r: RecordDefinition, granted: set<Text>) returns (documents: seq<Document>, ids: set<Text>)
    ensures documents == VisibleDocuments(r, granted) && ids == VisibleIds(r, granted)
  {
    documents, ids := [], {};
    for i := 0 to |r.documents|
      invariant documents == Filter(r.documents[..i], (d: Document) => Visible(r, granted, d))
      invariant ids == set d <- r.documents[..i] | Visible(r, granted, d) :: d.id
    {
      var d := r.documents[i];
      assert r.documents[..i + 1] == r.documents[..i] + [d];
      assert r.documents[..i + 1][..i] == r.documents[..i];
      if Visible(r, granted, d) {
        documents, ids := documents + [d], ids + {d.id};
      }
    }
    assert r.documents[..|r.documents|] == r.documents;
  }

  method CollectDocket(r: RecordDefinition, granted: set<Text>, ids: set<Text>) returns (rows: seq<DocketEntry>)
    requires ids == VisibleIds(r, granted)
    ensures rows == VisibleDocket(r, granted)
  {
    hide VisibleIds;
    rows := [];
    for i := 0 to |r.docket|
      invariant rows == Filter(r.docket[..i], (e: DocketEntry) => e.documentId in VisibleIds(r, granted))
    {
      assert r.docket[..i + 1][..i] == r.docket[..i];
      if r.docket[i].documentId in ids {
        rows := rows + [r.docket[i]];
      }
    }
    assert r.docket[..|r.docket|] == r.docket;
  }

  lemma NothingToFind()
    ensures Finds(map[], [])
  {
  }

  lemma FindsStep(authored: map<Text, PageAnchor>, anchors: seq<PageAnchor>, i: nat)
    requires i < |anchors| && Finds(authored, anchors[..i])
    ensures Finds(authored[anchors[i].id := anchors[i]], anchors[..i + 1])
  {
    assert anchors[..i + 1][..i] == anchors[..i];
  }

  method CollectPhysical(r: RecordDefinition, granted: set<Text>, ids: set<Text>)
    returns (anchors: seq<PageAnchor>, authored: map<Text, PageAnchor>)
    requires ids == VisibleIds(r, granted)
    ensures anchors == PhysicalAnchors(r, granted)
    ensures Finds(authored, r.anchors)
  {
    hide VisibleIds, Finds;
    anchors, authored := [], map[];
    NothingToFind();
    for i := 0 to |r.anchors|
      invariant anchors == Filter(r.anchors[..i], (a: PageAnchor) => a.documentId in VisibleIds(r, granted))
      invariant Finds(authored, r.anchors[..i])
    {
      var a := r.anchors[i];
      assert r.anchors[..i + 1][..i] == r.anchors[..i];
      FindsStep(authored, r.anchors, i);
      authored := authored[a.id := a];
      if a.documentId in ids {
        anchors := anchors + [a];
      }
    }
    assert r.anchors[..|r.anchors|] == r.anchors;
  }

  ghost predicate Finds(authored: map<Text, PageAnchor>, anchors: seq<PageAnchor>) {
    && (forall id :: id in authored <==> Authored(anchors, id).Some?)
    && (forall id :: id in authored ==> Authored(anchors, id) == Some(authored[id]))
  }

  lemma CopyIsFound(r: RecordDefinition, granted: set<Text>, ids: set<Text>, authored: map<Text, PageAnchor>,
                    d: SealedDisclosure, m: TwinAnchor)
    requires ids == VisibleIds(r, granted) && Finds(authored, r.anchors)
    ensures var id := TwinSide(granted, d, m);
            StableCopy(r, granted, d, m) ==
            if id in authored && authored[id].documentId in ids then Some(authored[id].(id := m.stableAnchorId))
            else None
  {
    hide VisibleIds, Authored;
  }

  method CollectCopiesOf(r: RecordDefinition, granted: set<Text>, ids: set<Text>, authored: map<Text, PageAnchor>,
                         d: SealedDisclosure, anchors: seq<PageAnchor>)
    returns (extended: seq<PageAnchor>)
    requires ids == VisibleIds(r, granted) && Finds(authored, r.anchors)
    ensures extended == anchors + CopiesOf(r, granted, d, d.anchorMappings)
  {
    hide VisibleIds, Finds, StableCopy;
    extended := anchors;
    var useSealed := d.sealedDocumentId in granted;
    var ms := d.anchorMappings;
    for i := 0 to |ms|
      invariant extended == anchors + CopiesOf(r, granted, d, ms[..i])
    {
      assert ms[..i + 1][..i] == ms[..i];
      var physicalId := if useSealed then ms[i].sealedAnchorId else ms[i].publicAnchorId;
      CopyIsFound(r, granted, ids, authored, d, ms[i]);
      if physicalId in authored && authored[physicalId].documentId in ids {
        extended := extended + [authored[physicalId].(id := ms[i].stableAnchorId)];
      }
    }
    assert ms[..|ms|] == ms;
  }

  method CollectAnchors(r: RecordDefinition, granted: set<Text>, ids: set<Text>) returns (anchors: seq<PageAnchor>)
    requires ids == VisibleIds(r, granted)
    ensures anchors == VisibleAnchors(r, granted)
  {
    hide VisibleIds, PhysicalAnchors, CopiesOf, Finds;
    var authored;
    anchors, authored := CollectPhysical(r, granted, ids);
    if r.policy.Some? {
      var ds := r.disclosures;
      for i := 0 to |ds|
        invariant anchors == PhysicalAnchors(r, granted) + StableCopies(r, granted, ds[..i])
      {
        assert ds[..i + 1][..i] == ds[..i];
        anchors := CollectCopiesOf(r, granted, ids, authored, ds[i], anchors);
      }
      assert ds[..|ds|] == ds;
    }
  }

  method TableOfAnchors(anchors: seq<PageAnchor>) returns (byId: map<Text, PageAnchor>)
    requires forall a, b :: a in anchors && b in anchors && a.id == b.id ==> a == b
    ensures Locates(byId, anchors)
  {
    byId := map[];
    for i := 0 to |anchors|
      invariant forall k :: 0 <= k < i ==> anchors[k].id in byId
      invariant forall id :: id in byId ==> byId[id] in anchors && byId[id].id == id
    {
      byId := byId[anchors[i].id := anchors[i]];
    }
  }

  // Some visible anchor for every label that a visible anchor carries.
  ghost predicate Cites(citations: map<Text, Text>, anchors: map<Text, PageAnchor>) {
    && (forall citation :: citation in citations ==>
          citation != [] && citations[citation] in anchors && anchors[citations[citation]].citationLabel == citation)
    && (forall id :: id in anchors && anchors[id].citationLabel != [] ==> anchors[id].citationLabel in citations)
  }

  // The hash is walked in no particular order; the last anchor met with a label is the one kept.
  method IndexCitations(anchors: map<Text, PageAnchor>) returns (citations: map<Text, Text>)
    ensures Cites(citations, anchors)
  {
    citations := map[];
    var rest := anchors.Keys;
    while rest != {}
      invariant rest <= anchors.Keys
      invariant forall citation :: citation in citations ==>
                  citation != [] && citations[citation] in anchors
                  && anchors[citations[citation]].citationLabel == citation
      invariant forall id :: id in anchors.Keys - rest && anchors[id].citationLabel != [] ==>
                  anchors[id].citationLabel in citations
      decreases |rest|
    {
      var id: Text :| id in rest;
      if anchors[id].citationLabel != [] {
        citations := citations[anchors[id].citationLabel := id];
      }
      rest := rest - {id};
    }
  }

  lemma NoRecordIsWellLinked()
    ensures WellLinked(NoRecord())
  {
    assert ParentLinks([]) == map[];
    forall x, n: nat | n > 0 ensures !ParentGraph.Follows(map[], x, x, n) {
    }
  }

  lemma LinkedDocumentsAreUnique(r: RecordDefinition, c: Document, d: Document)
    requires WellLinked(r) && c in r.documents && d in r.documents
    ensures c.id == d.id ==> c == d
  {
    OneDocumentPerId(r, c, d);
  }

  lemma AcceptableIsWellLinked(r: RecordDefinition, files: set<Text>)
    ensures Acceptable(r, files) ==> WellLinked(r)
  {
  }

  lemma VisibleDocumentsAreGood(r: RecordDefinition, granted: set<Text>)
    requires WellLinked(r)
    ensures forall c, d :: c in VisibleDocuments(r, granted) && d in VisibleDocuments(r, granted) && c.id == d.id ==>
              c == d
  {
    hide GoodDisclosing;
    forall c, d | c in r.documents && d in r.documents && c.id == d.id ensures c == d {
      OneDocumentPerId(r, c, d);
    }
  }

  method TableOfDocuments(documents: seq<Document>) returns (byId: map<Text, Document>)
    requires forall c, d :: c in documents && d in documents && c.id == d.id ==> c == d
    ensures Holds(byId, documents)
  {
    byId := map[];
    for i := 0 to |documents|
      invariant forall k :: 0 <= k < i ==> documents[k].id in byId
      invariant forall id :: id in byId ==> byId[id] in documents && byId[id].id == id
    {
      byId := byId[documents[i].id := documents[i]];
    }
  }

  lemma VisibleDocumentOf(r: RecordDefinition, granted: set<Text>, id: Text) returns (d: Document)
    requires WellLinked(r) && id in VisibleIds(r, granted)
    ensures d in VisibleDocuments(r, granted) && d.id == id && d.id != []
  {
    hide GoodDisclosing, GoodDocket, GoodDescriptors, GoodLinks, GoodAnchors, ParentGraph.HasCycle;
    d :| d in r.documents && Visible(r, granted, d) && d.id == id;
    assert GoodDocument(d);
    NonemptyText(d.id, 160);
  }

  lemma NotMissing(r: RecordDefinition, granted: set<Text>, shelf: Shelf, d: Document, target: int)
    ensures OpenError(r, granted, shelf, d, target) != Some(MissingDocketEntry)
  {
  }

  lemma PhysicalIsVisible(r: RecordDefinition, granted: set<Text>, a: PageAnchor)
    requires a in PhysicalAnchors(r, granted)
    ensures a in VisibleAnchors(r, granted)
  {
  }

  lemma InPhysical(r: RecordDefinition, granted: set<Text>, a: PageAnchor)
    ensures a in PhysicalAnchors(r, granted) <==> a in r.anchors && a.documentId in VisibleIds(r, granted)
  {
  }

  lemma DisclosuresNeedAPolicy(r: RecordDefinition)
    requires WellLinked(r) && r.disclosures != []
    ensures r.policy.Some?
  {
  }

  lemma ProperGrantsArePermitted(r: RecordDefinition, p: AccessProjection)
    requires GrantsAreProper(r, p.authorizedDocumentIds)
    ensures Grants(p) <= Permitted(r.disclosures)
  {
  }

  // ---- The workspace ----

  class RecordWorkspace {
    var full: RecordDefinition
    var granted: set<Text>
    var access: Option<AccessProjection>
    var rows: seq<DocketEntry>
    var documents: map<Text, Document>
    var anchors: map<Text, PageAnchor>
    var citations: map<Text, Text>
    // The open document, none if empty, and the page shown.
    var current: Text
    var page: int
    var lastError: Option<ErrorCode>

    // The access projections applied since the record was set.
    ghost var applied: seq<AccessProjection>

    ghost predicate ShowsTheProjection()
      reads `full, `granted, `rows, `documents, `anchors, `citations
    {
      && rows == VisibleDocket(full, granted)
      && Holds(documents, VisibleDocuments(full, granted))
      && Locates(anchors, VisibleAnchors(full, granted))
      && Cites(citations, anchors)
    }

    ghost predicate OpenIsReadable()
      reads `full, `granted, `current
    {
      current != [] ==> exists d :: d in full.documents && d.id == current && MayRead(full, granted, d)
    }

    ghost predicate AccessIsRecorded()
      reads `full, `granted, `access, `applied
    {
      && granted <= Permitted(full.disclosures)
      && granted == (if access.Some? then Grants(access.value) else {})
      && (access.Some? ==> full.policy.Some? && ForPolicy(full.policy.value, access.value))
      && Orderly(applied)
      && access == (if applied == [] then None else Some(applied[|applied| - 1]))
    }

    ghost predicate Valid()
      reads this
    {
      WellLinked(full) && AccessIsRecorded() && ShowsTheProjection() && OpenIsReadable()
    }

    constructor ()
      ensures Valid() && full == NoRecord() && current == [] && applied == []
    {
      full := NoRecord();
      granted, access, applied := {}, None, [];
      rows, documents, anchors, citations := [], map[], map[], map[];
      current, page, lastError := [], -1, None;
      new;
      NoRecordIsWellLinked();
    }

    method Rebuild()
      requires WellLinked(full)
      modifies `rows, `documents, `anchors, `citations
      ensures ShowsTheProjection()
    {
      hide WellLinked, VisibleDocuments, VisibleIds, VisibleDocket, VisibleAnchors, Cites, Locates;
      var visible, ids := CollectDocuments(full, granted);
      var docket := CollectDocket(full, granted, ids);
      var projected := CollectAnchors(full, granted, ids);
      forall a, b | a in projected && b in projected && a.id == b.id ensures a == b {
        VisibleAnchorIdsAreUnique(full, granted, a, b);
      }
      rows := docket;
      VisibleDocumentsAreGood(full, granted);
      documents := TableOfDocuments(visible);
      anchors := TableOfAnchors(projected);
      citations := IndexCitations(anchors);
    }

    // Accepts a record exactly when it is acceptable; then nothing is granted and nothing is open.
    method SetRecord(r: RecordDefinition, files: set<Text>) returns (error: Option<ErrorCode>)
      requires Valid()
      modifies this
      ensures Valid()
      ensures error.None? <==> Acceptable(r, files)
      ensures error.None? ==> full == r && granted == {} && access.None? && applied == [] && current == []
      ensures error.Some? ==> RejectedWith(r, files, error.value) && Unchanged()
      ensures lastError == error
    {
      hide WellLinked, RejectedWith, Applies, ShowsTheProjection;
      error := RecordValidation.Validate(r, files);
      lastError := error;
      if error.Some? {
        return;
      }
      AcceptableIsWellLinked(r, files);
      full := r;
      granted, access, applied := {}, None, [];
      ClearLoaded();
      Rebuild();
    }

    twostate predicate Unchanged()
      reads this
    {
      && full == old(full) && granted == old(granted) && access == old(access) && rows == old(rows)
      && documents == old(documents) && anchors == old(anchors) && citations == old(citations)
      && current == old(current) && page == old(page) && applied == old(applied)
    }

    method ClearLoaded()
      modifies `current, `page
      ensures current == [] && page == -1
    {
      current, page := [], -1;
    }

    method CollectGrants(ids: seq<Text>) returns (ok: bool, authorized: set<Text>)
      ensures ok <==> GrantsAreProper(full, ids)
      ensures ok ==> authorized == set id <- ids
    {
      var permitted := Permitted(full.disclosures);
      authorized := {};
      for i := 0 to |ids|
        invariant GrantsAreProper(full, ids[..i])
        invariant authorized == set id <- ids[..i]
      {
        assert ids[..i + 1] == ids[..i] + [ids[i]];
        if ids[i] !in permitted || ids[i] in authorized {
          return false, authorized;
        }
        authorized := authorized + {ids[i]};
      }
      assert ids[..|ids|] == ids;
      ok := true;
    }

    // Closes the open document if it is sealed and not among the documents about to be granted.
    method CloseIfRevoked(authorized: set<Text>)
      requires WellLinked(full) && OpenIsReadable()
      modifies `current, `page
      ensures current ==
              (if exists d :: d in full.documents && d.id == old(current) && d.isSealed && d.id !in authorized
                          then [] else old(current))
      ensures full.policy.Some? && current != [] ==>
                exists d :: d in full.documents && d.id == current && MayRead(full, authorized, d)
    {
      hide WellLinked;
      if current != [] {
        for i := 0 to |full.documents|
          invariant current == old(current)
          invariant forall k :: 0 <= k < i ==> full.documents[k].id != current
        {
          var d := full.documents[i];
          if d.id == current {
            forall c | c in full.documents && c.id == current ensures c == d {
              LinkedDocumentsAreUnique(full, c, d);
            }
            if d.isSealed && d.id !in authorized {
              ClearLoaded();
            }
            return;
          }
        }
      }
    }

    // Applies a projection exactly when it fits the record, follows the one before and grants only what may be granted.
    method ApplyAccess(p: AccessProjection) returns (error: Option<ErrorCode>)
      requires Valid()
      modifies this
      ensures Valid()
      ensures error == (if Applies(old(full), old(access), p) then None else Some(AccessProjectionMismatch))
      ensures error.None? ==> ProperFor(full, p)
      ensures old(access).None? && ProperFor(old(full), p) ==> error.None?
      ensures old(access).Some? && ProperFor(old(full), p) ==>
                && (p.sessionId != old(access).value.sessionId ==> error.Some?)
                && (p.throughSequence < old(access).value.throughSequence ==> error.Some?)
                && (p.throughSequence == old(access).value.throughSequence ==>
                      (error.None? <==> p == old(access).value))
                && (p.throughSequence > old(access).value.throughSequence && p.sessionId == old(access).value.sessionId
                    ==> error.None?)
      ensures error.None? ==>
                full == old(full) && access == Some(p) && granted == Grants(p) && applied == old(applied) + [p]
      ensures error.None? ==> current == (if exists d :: d in full.documents && d.id == old(current) && d.isSealed
                                                         && d.id !in Grants(p) then [] else old(current))
      ensures error.Some? ==> Unchanged()
      ensures lastError == error
    {
      AppliesExactlyWhen(full, access, p);
      hide WellLinked, ShowsTheProjection, LowercaseSha256, ZeroHead, GrantsAreProper, Orderly, Follows, ForPolicy,
           ProperFor;
      if full.policy.None? || !ForPolicy(full.policy.value, p) || (access.Some? && !Follows(access.value, p)) {
        error, lastError := Some(AccessProjectionMismatch), Some(AccessProjectionMismatch);
        return;
      }
      var ok, authorized := CollectGrants(p.authorizedDocumentIds);
      if !ok {
        error, lastError := Some(AccessProjectionMismatch), Some(AccessProjectionMismatch);
        return;
      }
      ProperGrantsArePermitted(full, p);
      OrderlyStep(applied, p);
      CloseIfRevoked(authorized);
      granted, access, applied := authorized, Some(p), applied + [p];
      Rebuild();
      error, lastError := None, None;
    }

    // Opens a visible document at a page; without success nothing stays open, except that a refusal changes nothing.
    method OpenDocument(d: Document, target: int, shelf: Shelf) returns (error: Option<ErrorCode>)
      requires Valid() && d in VisibleDocuments(full, granted) && d.id != []
      modifies `current, `page, `lastError
      ensures Valid()
      ensures error == OpenError(full, granted, shelf, d, target) && lastError == error
      ensures error.None? ==> current == d.id && page == target
      ensures error == Some(SealedDocument) ==> current == old(current) && page == old(page)
      ensures error.Some? && error != Some(SealedDocument) ==> current == [] && page == -1
    {
      hide WellLinked, AccessIsRecorded, ShowsTheProjection;
      if d.isSealed && (full.policy.None? || d.id !in granted) {
        error, lastError := Some(SealedDocument), Some(SealedDocument);
        return;
      }
      var source := d.filePath;
      if d.isSealed && full.policy.Some? && d.isDeferred {
        var resolved := shelf.resolve(d);
        if resolved.None? || resolved.value == [] {
          ClearLoaded();
          error, lastError := Some(PdfLoadFailed), Some(PdfLoadFailed);
          return;
        }
        source := resolved.value;
      }
      if source == [] {
        ClearLoaded();
        error, lastError := Some(PdfLoadFailed), Some(PdfLoadFailed);
        return;
      }
      var pages := shelf.pageCount(source);
      if pages <= 0 || (d.declaredPages > 0 && pages != d.declaredPages) {
        ClearLoaded();
        error, lastError := Some(PdfLoadFailed), Some(PdfLoadFailed);
        return;
      }
      if target < 0 || target >= pages {
        ClearLoaded();
        error, lastError := Some(InvalidPageAnchor), Some(InvalidPageAnchor);
        return;
      }
      current, page, lastError := d.id, target, None;
      error := None;
    }

    // Opens the document of a visible entry at its first page. The branch for a missing document is never taken.
    method OpenDocketEntry(id: Text, shelf: Shelf) returns (error: Option<ErrorCode>)
      requires Valid()
      modifies `current, `page, `lastError
      ensures Valid() && lastError == error
      ensures error == Some(MissingDocketEntry) <==> id !in EntryIds(rows)
      ensures id in EntryIds(rows) ==>
                exists e, d :: e in rows && e.id == id && d in VisibleDocuments(full, granted) && d.id == e.documentId
                               && error == OpenError(full, granted, shelf, d, 0)
      ensures id !in EntryIds(rows) ==> current == old(current) && page == old(page)
    {
      hide WellLinked, AccessIsRecorded, OpenError, Cites, Locates;
      for i := 0 to |rows|
        invariant Valid() && current == old(current) && page == old(page)
        invariant forall k :: 0 <= k < i ==> rows[k].id != id
      {
        var e := rows[i];
        if e.id == id {
          assert e in VisibleDocket(full, granted);
          var d := VisibleDocumentOf(full, granted, e.documentId);
          if e.documentId !in documents {
            assert false;
            return;
          }
          error := OpenDocument(documents[e.documentId], 0, shelf);
          NotMissing(full, granted, shelf, documents[e.documentId], 0);
          return;
        }
      }
      error, lastError := Some(MissingDocketEntry), Some(MissingDocketEntry);
    }

    // Opens the page of a visible anchor. The branch for a missing document is never taken.
    method NavigateToAnchor(id: Text, shelf: Shelf) returns (error: Option<ErrorCode>)
      requires Valid()
      modifies `current, `page, `lastError
      ensures Valid() && lastError == error
      ensures id !in anchors ==> error == Some(InvalidPageAnchor) && current == old(current) && page == old(page)
      ensures id in anchors ==> Arrives(shelf, anchors[id].documentId, anchors[id].pageIndex, error)
    {
      hide WellLinked, AccessIsRecorded, OpenError, Cites, VisibleAnchors, VisibleDocket;
      if id !in anchors {
        error, lastError := Some(InvalidPageAnchor), Some(InvalidPageAnchor);
        return;
      }
      var a := anchors[id];
      var origin := VisibleAnchorShows(full, granted, a);
      var d := VisibleDocumentOf(full, granted, a.documentId);
      if a.documentId !in documents {
        assert false;
        return;
      }
      error := OpenDocument(documents[a.documentId], a.pageIndex, shelf);
    }

    // What opening a page answers, and where it leads when it succeeds.
    ghost predicate Arrives(shelf: Shelf, documentId: Text, target: int, error: Option<ErrorCode>)
      reads this
    {
      && (exists d :: d in VisibleDocuments(full, granted) && d.id == documentId
                      && error == OpenError(full, granted, shelf, d, target))
      && (error.None? ==> current == documentId && page == target)
    }

    // Whatever order the index was built in, a label leads to the page of the authored anchor that carries it.
    method NavigateToCitation(citation: Text, shelf: Shelf) returns (error: Option<ErrorCode>)
      requires Valid()
      modifies `current, `page, `lastError
      ensures Valid() && lastError == error
      ensures forall a :: a in PhysicalAnchors(full, granted) && a.citationLabel == citation && citation != [] ==>
                Arrives(shelf, a.documentId, a.pageIndex, error)
      ensures (citation == [] || forall a :: a in PhysicalAnchors(full, granted) ==> a.citationLabel != citation) ==>
                error == Some(InvalidPageAnchor) && current == old(current) && page == old(page)
    {
      hide WellLinked, AccessIsRecorded, OpenError, VisibleAnchors, VisibleDocket, PhysicalAnchors, Arrives;
      if citation !in citations {
        forall a | a in PhysicalAnchors(full, granted) && citation != [] ensures a.citationLabel != citation {
          PhysicalIsVisible(full, granted, a);
          assert anchors[a.id] == a;
        }
        error, lastError := Some(InvalidPageAnchor), Some(InvalidPageAnchor);
        return;
      }
      var id := citations[citation];
      ghost var found := anchors[id];
      ghost var origin := VisibleAnchorShows(full, granted, found);
      forall a | a in PhysicalAnchors(full, granted) && a.citationLabel == citation
        ensures a.documentId == found.documentId && a.pageIndex == found.pageIndex
      {
        PhysicalIsVisible(full, granted, a);
        LabelNamesOnePage(full, granted, a, found);
      }
      error := NavigateToAnchor(id, shelf);
    }

    // Rows, anchors and citations never lead to a document that is not visible.
    lemma {:induction false} OnlyVisibleDocumentsAreReached()
      requires Valid()
      ensures forall e :: e in rows ==> e.documentId in documents
      ensures forall id :: id in anchors ==> anchors[id].documentId in documents
      ensures forall id :: id in documents ==> documents[id] in full.documents && Visible(full, granted, documents[id])
      ensures forall c :: c in citations ==> citations[c] in anchors
    {
      hide WellLinked, AccessIsRecorded, OpenIsReadable, VisibleIds, PhysicalAnchors, VisibleAnchors;
      forall e | e in rows ensures e.documentId in documents {
        var d := VisibleDocumentOf(full, granted, e.documentId);
      }
      forall id | id in anchors ensures anchors[id].documentId in documents {
        var origin := VisibleAnchorShows(full, granted, anchors[id]);
        InPhysical(full, granted, origin);
        var d := VisibleDocumentOf(full, granted, origin.documentId);
      }
    }

    // In every state a stable twin identifier leads to the sealed page if its document is granted,
    // else to the public one.
    lemma {:induction false} StableTwinResolves(d: SealedDisclosure, m: TwinAnchor)
      requires Valid() && d in full.disclosures && m in d.anchorMappings
      ensures m.stableAnchorId in anchors
      ensures var a := anchors[m.stableAnchorId];
              && a.documentId == (if d.sealedDocumentId in granted then d.sealedDocumentId else d.publicDocumentId)
              && exists side :: side in full.anchors && side.id == TwinSide(granted, d, m)
                                && a == side.(id := m.stableAnchorId)
    {
      hide AccessIsRecorded, OpenIsReadable, GoodGraph, GoodDisclosing, VisibleAnchors, VisibleDocket, VisibleDocuments;
      StableCopyExists(full, granted, d, m);
      var copy := StableCopy(full, granted, d, m).value;
      DisclosuresNeedAPolicy(full);
      AmongVisibleAnchors(full, granted, copy);
      assert anchors[copy.id] == copy;
    }
  }

  datatype Command =
    | Set(r: RecordDefinition, files: set<Text>)
    | Access(p: AccessProjection)
    | OpenEntry(id: Text, shelf: Shelf)
    | OpenAnchor(id: Text, shelf: Shelf)
    | OpenCitation(citation: Text, shelf: Shelf)

  // Over every run from a new workspace the open document is public or granted, the projection shown is the one of the
  // current grants, the grants are declared sealed documents, and the access history is orderly.
  method AnyRun(script: seq<Command>) returns (w: RecordWorkspace)
    ensures fresh(w) && w.Valid()
    ensures w.current != [] ==> exists d :: d in w.full.documents && d.id == w.current && MayRead(w.full, w.granted, d)
    ensures w.granted <= Permitted(w.full.disclosures)
    ensures forall i, j :: 0 <= i < j < |w.applied| ==>
              && w.applied[i].sessionId == w.applied[j].sessionId
              && w.applied[i].throughSequence <= w.applied[j].throughSequence
              && (w.applied[i].throughSequence == w.applied[j].throughSequence ==> w.applied[i] == w.applied[j])
    ensures w.access == (if w.applied == [] then None else Some(w.applied[|w.applied| - 1]))
    ensures w.rows == VisibleDocket(w.full, w.granted)
  {
    hide WellLinked, Acceptable, RejectedWith, Applies, Orderly, OpenError, VisibleDocket, VisibleAnchors,
         PhysicalAnchors, Holds, Locates, Cites, RecordWorkspace.Arrives, RecordWorkspace.Valid;
    w := new RecordWorkspace();
    for i := 0 to |script|
      invariant fresh(w) && w.Valid()
    {
      var error;
      match script[i] {
        case Set(r, files) => error := w.SetRecord(r, files);
        case Access(p) => error := w.ApplyAccess(p);
        case OpenEntry(id, shelf) => error := w.OpenDocketEntry(id, shelf);
        case OpenAnchor(id, shelf) => error := w.NavigateToAnchor(id, shelf);
        case OpenCitation(citation, shelf) => error := w.NavigateToCitation(citation, shelf);
      }
    }
    ValidSays(w);
    OrderlySays(w.applied);
  }

  lemma ValidSays(w: RecordWorkspace)
    requires w.Valid()
    ensures w.OpenIsReadable() && w.AccessIsRecorded() && w.ShowsTheProjection()
  {
  }

  lemma OrderlySays(applied: seq<AccessProjection>)
    requires Orderly(applied)
    ensures forall i, j :: 0 <= i < j < |applied| ==>
              && applied[i].sessionId == applied[j].sessionId
              && applied[i].throughSequence <= applied[j].throughSequence
              && (applied[i].throughSequence == applied[j].throughSequence ==> applied[i] == applied[j])
  {
  }
}

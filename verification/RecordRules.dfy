/** What a record must satisfy before the workspace holds it, stated without reference to how it is checked. */
module RecordRules {
  import opened Utf16Text
  import opened RecordModel
  import ParentGraph

  // ---- Docket descriptors, documents and entries ----

  ghost predicate GoodDescriptor(d: DocketDescriptor) {
    && Bounded(d.id, 160, false)
    && d.kind in {Ascii("district"), Ascii("appellate"), Ascii("agency"), Ascii("original")}
    && Bounded(d.courtId, 160, true)
    && Bounded(d.courtRef, 240, false)
    && Bounded(d.publicDocketNumber, 120, false)
    && Bounded(d.caption, 512, false)
  }

  ghost predicate GoodDescriptors(dockets: seq<DocketDescriptor>) {
    && (forall k :: 0 <= k < |dockets| ==> GoodDescriptor(dockets[k]))
    && (forall j, k :: 0 <= j < k < |dockets| ==> dockets[j].id != dockets[k].id)
  }

  ghost predicate GoodDocument(d: Document) {
    Bounded(d.id, 160, false) && Bounded(d.title, 512, false) && d.declaredPages >= 0
  }

  ghost predicate GoodDocuments(documents: seq<Document>) {
    && (forall k :: 0 <= k < |documents| ==> GoodDocument(documents[k]))
    && (forall j, k :: 0 <= j < k < |documents| ==> documents[j].id != documents[k].id)
  }

  // `files` are the paths that lead to a regular file without a symbolic link.
  ghost predicate AssetsPresent(documents: seq<Document>, files: set<Text>) {
    forall k :: 0 <= k < |documents| && !documents[k].isSealed ==> documents[k].filePath in files
  }

  ghost predicate GoodEntry(e: DocketEntry) {
    && Bounded(e.id, 160, false)
    && e.filedOn.Some?
    && Bounded(e.title, 512, false)
    && Bounded(e.actor, 240, false)
    && Bounded(e.description, 4096, false)
    && Bounded(e.docketId, 160, true)
    && Bounded(e.docketLabel, 120, true)
    && Bounded(e.entryLabel, 120, true)
    && Bounded(e.parentEntryId, 160, true)
    && Bounded(e.relationship, 16, true)
    && |e.tags| <= 32
    && forall i :: 0 <= i < |e.tags| ==> Bounded(e.tags[i], 64, false)
  }

  ghost predicate DescriptorResolves(e: DocketEntry, descriptorIds: set<Text>) {
    e.docketId == [] || e.docketId in descriptorIds
  }

  ghost predicate GoodDocket(docket: seq<DocketEntry>, descriptorIds: set<Text>, documentIds: set<Text>) {
    && (forall k :: 0 <= k < |docket| ==>
          GoodEntry(docket[k]) && DescriptorResolves(docket[k], descriptorIds) && docket[k].documentId in documentIds)
    && (forall j, k :: 0 <= j < k < |docket| ==> docket[j].id != docket[k].id)
  }

  // ---- Parent links ----

  // `p` may stand as the parent of `e`: one docket, and no public entry below a sealed one.
  ghost predicate MayBeParent(e: DocketEntry, p: DocketEntry, hasPolicy: bool, isSealed: set<Text>) {
    && p.docketId == e.docketId
    && (hasPolicy && e.documentId !in isSealed ==> p.documentId !in isSealed)
  }

  ghost predicate GoodLink(docket: seq<DocketEntry>, e: DocketEntry, hasPolicy: bool, isSealed: set<Text>) {
    && (e.parentEntryId == [] <==> e.relationship == [])
    && (e.parentEntryId != [] ==>
          && e.parentEntryId != e.id
          && e.relationship in {Ascii("attachment"), Ascii("amendment"), Ascii("supplement"), Ascii("component")}
          && exists p :: p in docket && p.id == e.parentEntryId && MayBeParent(e, p, hasPolicy, isSealed))
  }

  ghost predicate GoodLinks(docket: seq<DocketEntry>, hasPolicy: bool, isSealed: set<Text>) {
    forall k :: 0 <= k < |docket| ==> GoodLink(docket, docket[k], hasPolicy, isSealed)
  }

  ghost predicate Referenced(documents: seq<Document>, docket: seq<DocketEntry>) {
    forall k :: 0 <= k < |documents| ==> documents[k].id in FiledDocuments(docket)
  }

  // ---- Page anchors ----

  // A declared page count of zero means the count is not known.
  ghost predicate PageExists(documents: seq<Document>, a: PageAnchor) {
    exists d :: d in documents && d.id == a.documentId && (d.declaredPages == 0 || a.pageIndex < d.declaredPages)
  }

  ghost predicate GoodAnchor(a: PageAnchor, documents: seq<Document>, docketIds: set<Text>) {
    && Bounded(a.id, 160, false)
    && Bounded(a.documentId, 160, false)
    && Bounded(a.citationLabel, 120, true)
    && a.pageIndex >= 0
    && a.id !in DocumentIds(documents)
    && a.id !in docketIds
    && PageExists(documents, a)
  }

  ghost predicate Apart(a: PageAnchor, b: PageAnchor) {
    a.id != b.id && (a.citationLabel != [] ==> a.citationLabel != b.citationLabel)
  }

  ghost predicate GoodAnchors(anchors: seq<PageAnchor>, documents: seq<Document>, docketIds: set<Text>) {
    && (forall k :: 0 <= k < |anchors| ==> GoodAnchor(anchors[k], documents, docketIds))
    && (forall j, k :: 0 <= j < k < |anchors| ==> Apart(anchors[j], anchors[k]))
  }

  // ---- Disclosure rules ----

  ghost predicate GoodPolicy(policy: DisclosurePolicy) {
    && Bounded(policy.recordId, 160, false)
    && Bounded(policy.policyId, 160, false)
    && policy.unauthorizedProjection == Ascii("public_counterparts_only")
    && policy.authorizedProjection == Ascii("public_and_authorized_sealed")
    && policy.sealedAssetAccess == Ascii("session_event_grant_required")
  }

  ghost predicate OneDocketPerDocument(docket: seq<DocketEntry>) {
    forall j, k :: 0 <= j < k < |docket| && docket[j].documentId == docket[k].documentId ==>
      docket[j].docketId == docket[k].docketId
  }

  ghost predicate SameDocket(docket: seq<DocketEntry>, x: Text, y: Text) {
    forall e, f :: e in docket && f in docket && e.documentId == x && f.documentId == y ==> e.docketId == f.docketId
  }

  ghost predicate IsSealed(documents: seq<Document>, id: Text) {
    exists d :: d in documents && d.id == id && d.isSealed
  }

  ghost predicate IsPublic(documents: seq<Document>, id: Text) {
    exists d :: d in documents && d.id == id && !d.isSealed
  }

  ghost predicate TypedRequirements(items: seq<Text>) {
    && |items| <= 3
    && (forall k :: 0 <= k < |items| ==>
          items[k] in {Ascii("motion"), Ascii("certificate"), Ascii("redacted_counterpart")})
    && (forall j, k :: 0 <= j < k < |items| ==> items[j] != items[k])
  }

  ghost predicate DistinctSupports(d: SealedDisclosure) {
    && (d.publicDocumentId != [] ==> d.publicDocumentId != d.motionDocumentId)
    && (d.publicDocumentId != [] ==> d.publicDocumentId != d.certificateDocumentId)
    && (d.motionDocumentId != [] ==> d.motionDocumentId != d.certificateDocumentId)
  }

  ghost predicate GoodIdentity(r: RecordDefinition, before: seq<SealedDisclosure>, d: SealedDisclosure) {
    && Bounded(d.disclosureId, 160, false)
    && d.disclosureId !in DisclosureIds(before)
    && d.disclosureId !in StableIds(before)
    && d.disclosureId !in DocumentIds(r.documents)
    && d.disclosureId !in EntryIds(r.docket)
    && d.disclosureId !in AnchorIds(r.anchors)
    && Bounded(d.sealedDocumentId, 160, false)
    && Bounded(d.publicDocumentId, 160, true)
    && Bounded(d.motionDocumentId, 160, true)
    && Bounded(d.certificateDocumentId, 160, true)
    && Bounded(d.authorityId, 160, false)
    && IsSealed(r.documents, d.sealedDocumentId)
    && d.sealedDocumentId !in Permitted(before)
  }

  // Everything a disclosure must satisfy apart from its anchors, given the disclosures listed before it.
  ghost predicate GoodRule(r: RecordDefinition, before: seq<SealedDisclosure>, d: SealedDisclosure) {
    && GoodIdentity(r, before, d)
    && TypedRequirements(d.requiredItems)
    && (d.publicDocumentId != [] ==> IsPublic(r.documents, d.publicDocumentId))
    && (d.motionDocumentId != [] ==> IsPublic(r.documents, d.motionDocumentId))
    && (d.certificateDocumentId != [] ==> IsPublic(r.documents, d.certificateDocumentId))
    && (d.publicDocumentId != [] ==>
          && d.publicDocumentId !in Counterparts(before)
          && SameDocket(r.docket, d.publicDocumentId, d.sealedDocumentId))
    && DistinctSupports(d)
  }

  ghost predicate AnchorIn(anchors: seq<PageAnchor>, id: Text, documentId: Text) {
    exists a :: a in anchors && a.id == id && a.documentId == documentId
  }

  ghost predicate GoodMapping(r: RecordDefinition, before: seq<SealedDisclosure>, d: SealedDisclosure, k: nat)
    requires k < |d.anchorMappings|
  {
    var m, done := d.anchorMappings[k], d.anchorMappings[..k];
    && Bounded(m.stableAnchorId, 160, false)
    && Bounded(m.sealedAnchorId, 160, false)
    && Bounded(m.publicAnchorId, 160, false)
    && m.stableAnchorId !in StableIds(before)
    && m.stableAnchorId !in StableOf(done)
    && m.stableAnchorId !in AnchorIds(r.anchors)
    && m.stableAnchorId !in DocumentIds(r.documents)
    && m.stableAnchorId !in EntryIds(r.docket)
    && m.sealedAnchorId !in MappedSealed(before)
    && m.sealedAnchorId !in SealedOf(done)
    && m.publicAnchorId !in MappedPublic(before)
    && m.publicAnchorId !in PublicOf(done)
    && AnchorIn(r.anchors, m.sealedAnchorId, d.sealedDocumentId)
    && AnchorIn(r.anchors, m.publicAnchorId, d.publicDocumentId)
  }

  ghost predicate GoodMappings(r: RecordDefinition, before: seq<SealedDisclosure>, d: SealedDisclosure) {
    && (d.publicDocumentId == [] ==> d.anchorMappings == [])
    && forall k :: 0 <= k < |d.anchorMappings| ==> GoodMapping(r, before, d, k)
  }

  ghost predicate GoodDisclosures(r: RecordDefinition, disclosures: seq<SealedDisclosure>) {
    forall k :: 0 <= k < |disclosures| ==>
      && GoodRule(r, disclosures[..k], disclosures[k])
      && GoodMappings(r, disclosures[..k], disclosures[k])
  }

  ghost predicate EverySealedHasARule(documents: seq<Document>, disclosures: seq<SealedDisclosure>) {
    forall k :: 0 <= k < |documents| && documents[k].isSealed ==> documents[k].id in Permitted(disclosures)
  }

  // ---- The whole record ----

  ghost predicate GoodGraph(r: RecordDefinition) {
    && GoodDescriptors(r.dockets)
    && GoodDocuments(r.documents)
    && GoodDocket(r.docket, DescriptorIds(r.dockets), DocumentIds(r.documents))
    && GoodLinks(r.docket, r.policy.Some?, SealedIds(r.documents))
    && !ParentGraph.HasCycle(ParentLinks(r.docket))
    && Referenced(r.documents, r.docket)
    && GoodAnchors(r.anchors, r.documents, EntryIds(r.docket))
  }

  ghost predicate GoodDisclosing(r: RecordDefinition) {
    if r.policy.None? then r.disclosures == []
    else
      && GoodPolicy(r.policy.value)
      && OneDocketPerDocument(r.docket)
      && GoodDisclosures(r, r.disclosures)
      && EverySealedHasARule(r.documents, r.disclosures)
  }

  // Holds of every record the workspace accepts, and of the empty one it starts with.
  ghost predicate WellLinked(r: RecordDefinition) {
    GoodGraph(r) && GoodDisclosing(r)
  }

  ghost predicate Acceptable(r: RecordDefinition, files: set<Text>) {
    && r.documents != [] && r.docket != []
    && (r.policy.Some? ==> r.disclosures != [])
    && AssetsPresent(r.documents, files)
    && WellLinked(r)
  }

  // ---- Which error a refused record is answered with ----

  ghost predicate DocumentsRejected(documents: seq<Document>, files: set<Text>, code: ErrorCode) {
    exists k :: 0 <= k < |documents| && GoodDocuments(documents[..k]) && AssetsPresent(documents[..k], files)
                && code == if GoodDocuments(documents[..k + 1]) then MissingAsset else InvalidDefinition
  }

  ghost predicate DocketRejected(docket: seq<DocketEntry>, descriptorIds: set<Text>, documentIds: set<Text>,
                                 code: ErrorCode)
  {
    exists k :: 0 <= k < |docket| && GoodDocket(docket[..k], descriptorIds, documentIds)
                && code == (if GoodEntry(docket[k]) && docket[k].id !in EntryIds(docket[..k])
                               && DescriptorResolves(docket[k], descriptorIds) then MissingDocument
                            else InvalidDefinition)
  }

  ghost predicate DisclosuresRejected(r: RecordDefinition, code: ErrorCode) {
    exists k :: 0 <= k < |r.disclosures| && GoodDisclosures(r, r.disclosures[..k])
                && code == if GoodRule(r, r.disclosures[..k], r.disclosures[k]) then InvalidPageAnchor
                           else InvalidDefinition
  }

  // The first rule that fails, in the order of the checks, decides the code.
  ghost predicate RejectedWith(r: RecordDefinition, files: set<Text>, code: ErrorCode) {
    if r.documents == [] || r.docket == [] || !GoodDescriptors(r.dockets) then code == InvalidDefinition
    else if !GoodDocuments(r.documents) || !AssetsPresent(r.documents, files) then
      DocumentsRejected(r.documents, files, code)
    else if !GoodDocket(r.docket, DescriptorIds(r.dockets), DocumentIds(r.documents)) then
      DocketRejected(r.docket, DescriptorIds(r.dockets), DocumentIds(r.documents), code)
    else if !GoodLinks(r.docket, r.policy.Some?, SealedIds(r.documents))
            || ParentGraph.HasCycle(ParentLinks(r.docket)) then
      code == InvalidDefinition
    else if !Referenced(r.documents, r.docket) then code == OrphanDocument
    else if !GoodAnchors(r.anchors, r.documents, EntryIds(r.docket)) then code == InvalidPageAnchor
    else if r.policy.None? then r.disclosures != [] && code == InvalidDefinition
    else if !GoodPolicy(r.policy.value) || r.disclosures == [] || !OneDocketPerDocument(r.docket) then
      code == InvalidDefinition
    else if !GoodDisclosures(r, r.disclosures) then DisclosuresRejected(r, code)
    else !EverySealedHasARule(r.documents, r.disclosures) && code == InvalidDefinition
  }
}

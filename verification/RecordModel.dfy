/** The authored record: documents, docket entries, page anchors, and the disclosure rules over them. */
module RecordModel {
  import opened Utf16Text

  datatype Document = Document(id: Text, title: Text, filePath: Text, isSealed: bool, declaredPages: int,
                               isDeferred: bool)

  // `filedOn` is none for a date that is not valid.
  datatype DocketEntry = DocketEntry(id: Text, filedOn: Option<int>, title: Text, actor: Text, description: Text,
                                     documentId: Text, tags: seq<Text>, docketId: Text, docketLabel: Text,
                                     entryLabel: Text, parentEntryId: Text, relationship: Text)

  datatype PageAnchor = PageAnchor(id: Text, documentId: Text, pageIndex: int, citationLabel: Text)

  datatype TwinAnchor = TwinAnchor(stableAnchorId: Text, sealedAnchorId: Text, publicAnchorId: Text)

  datatype SealedDisclosure = SealedDisclosure(disclosureId: Text, sealedDocumentId: Text, publicDocumentId: Text,
                                               motionDocumentId: Text, certificateDocumentId: Text,
                                               authorityId: Text, requiredItems: seq<Text>,
                                               anchorMappings: seq<TwinAnchor>)

  datatype DisclosurePolicy = DisclosurePolicy(recordId: Text, policyId: Text, unauthorizedProjection: Text,
                                               authorizedProjection: Text, sealedAssetAccess: Text)

  datatype DocketDescriptor = DocketDescriptor(id: Text, kind: Text, courtId: Text, courtRef: Text,
                                               publicDocketNumber: Text, caption: Text)

  datatype RecordDefinition = RecordDefinition(documents: seq<Document>, docket: seq<DocketEntry>,
                                               anchors: seq<PageAnchor>, dockets: seq<DocketDescriptor>,
                                               policy: Option<DisclosurePolicy>,
                                               disclosures: seq<SealedDisclosure>)

  function NoRecord(): RecordDefinition {
    RecordDefinition([], [], [], [], None, [])
  }

  datatype ErrorCode =
    | InvalidDefinition
    | MissingDocument
    | OrphanDocument
    | MissingAsset
    | MissingDocketEntry
    | InvalidPageAnchor
    | SealedDocument
    | PdfLoadFailed
    | NoDocumentSelected
    | AccessProjectionMismatch

  function DocumentIds(documents: seq<Document>): set<Text> {
    set d <- documents :: d.id
  }

  function SealedIds(documents: seq<Document>): set<Text> {
    set d <- documents | d.isSealed :: d.id
  }

  function EntryIds(docket: seq<DocketEntry>): set<Text> {
    set e <- docket :: e.id
  }

  function FiledDocuments(docket: seq<DocketEntry>): set<Text> {
    set e <- docket :: e.documentId
  }

  function AnchorIds(anchors: seq<PageAnchor>): set<Text> {
    set a <- anchors :: a.id
  }

  function DescriptorIds(dockets: seq<DocketDescriptor>): set<Text> {
    set d <- dockets :: d.id
  }

  function DisclosureIds(disclosures: seq<SealedDisclosure>): set<Text> {
    set d <- disclosures :: d.disclosureId
  }

  // The documents a session may be granted.
  function Permitted(disclosures: seq<SealedDisclosure>): set<Text> {
    set d <- disclosures :: d.sealedDocumentId
  }

  function Counterparts(disclosures: seq<SealedDisclosure>): set<Text> {
    set d <- disclosures | d.publicDocumentId != [] :: d.publicDocumentId
  }

  function StableOf(mappings: seq<TwinAnchor>): set<Text> {
    set m <- mappings :: m.stableAnchorId
  }

  function SealedOf(mappings: seq<TwinAnchor>): set<Text> {
    set m <- mappings :: m.sealedAnchorId
  }

  function PublicOf(mappings: seq<TwinAnchor>): set<Text> {
    set m <- mappings :: m.publicAnchorId
  }

  function StableIds(disclosures: seq<SealedDisclosure>): set<Text> {
    set d <- disclosures, id <- StableOf(d.anchorMappings) :: id
  }

  function MappedSealed(disclosures: seq<SealedDisclosure>): set<Text> {
    set d <- disclosures, id <- SealedOf(d.anchorMappings) :: id
  }

  function MappedPublic(disclosures: seq<SealedDisclosure>): set<Text> {
    set d <- disclosures, id <- PublicOf(d.anchorMappings) :: id
  }

  // The parent link of every entry that has one; a later entry with the same identifier wins.
  function ParentLinks(docket: seq<DocketEntry>): (links: map<Text, Text>)
    ensures links.Keys <= EntryIds(docket)
  {
    if docket == [] then map[]
    else
      var n := |docket| - 1;
      var links := ParentLinks(docket[..n]);
      if docket[n].parentEntryId == [] then links else links[docket[n].id := docket[n].parentEntryId]
  }

  // ---- Look-up tables ----

  predicate Holds(byId: map<Text, Document>, documents: seq<Document>) {
    && (forall d :: d in documents ==> d.id in byId && byId[d.id] == d)
    && (forall id :: id in byId ==> byId[id] in documents && byId[id].id == id)
  }

  predicate Indexes(byId: map<Text, DocketEntry>, docket: seq<DocketEntry>) {
    && (forall e :: e in docket ==> e.id in byId && byId[e.id] == e)
    && (forall id :: id in byId ==> byId[id] in docket && byId[id].id == id)
  }

  predicate Locates(byId: map<Text, PageAnchor>, anchors: seq<PageAnchor>) {
    && (forall a :: a in anchors ==> a.id in byId && byId[a.id] == a)
    && (forall id :: id in byId ==> byId[id] in anchors && byId[id].id == id)
  }
}

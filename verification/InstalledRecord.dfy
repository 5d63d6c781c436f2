/** The public record that the installed-record controller computes on its own, without a session. */
module InstalledRecord {
  import opened Utf16Text
  import opened RecordModel
  import opened RecordRules
  import opened RecordProjection
  import ParentGraph

  method ErasedDocuments(documents: seq<Document>) returns (kept: seq<Document>)
    ensures kept == Filter(documents, (d: Document) => !d.isSealed)
  {
    kept := [];
    for i := 0 to |documents|
      invariant kept == Filter(documents[..i], (d: Document) => !d.isSealed)
    {
      assert documents[..i + 1][..i] == documents[..i];
      if !documents[i].isSealed {
        kept := kept + [documents[i]];
      }
    }
    assert documents[..|documents|] == documents;
  }

  method ErasedEntries(docket: seq<DocketEntry>, isSealed: set<Text>) returns (kept: seq<DocketEntry>)
    ensures kept == Filter(docket, (e: DocketEntry) => e.documentId !in isSealed)
  {
    kept := [];
    for i := 0 to |docket|
      invariant kept == Filter(docket[..i], (e: DocketEntry) => e.documentId !in isSealed)
    {
      assert docket[..i + 1][..i] == docket[..i];
      if docket[i].documentId !in isSealed {
        kept := kept + [docket[i]];
      }
    }
    assert docket[..|docket|] == docket;
  }

  method ErasedAnchors(anchors: seq<PageAnchor>, isSealed: set<Text>) returns (kept: seq<PageAnchor>)
    ensures kept == Filter(anchors, (a: PageAnchor) => a.documentId !in isSealed)
  {
    kept := [];
    for i := 0 to |anchors|
      invariant kept == Filter(anchors[..i], (a: PageAnchor) => a.documentId !in isSealed)
    {
      assert anchors[..i + 1][..i] == anchors[..i];
      if anchors[i].documentId !in isSealed {
        kept := kept + [anchors[i]];
      }
    }
    assert anchors[..|anchors|] == anchors;
  }

  method AuthoredAnchors(anchors: seq<PageAnchor>) returns (byId: map<Text, PageAnchor>)
    ensures forall id :: id in byId <==> Authored(anchors, id).Some?
    ensures forall id :: id in byId ==> Authored(anchors, id) == Some(byId[id])
  {
    byId := map[];
    for i := 0 to |anchors|
      invariant forall id :: id in byId <==> Authored(anchors[..i], id).Some?
      invariant forall id :: id in byId ==> Authored(anchors[..i], id) == Some(byId[id])
    {
      assert anchors[..i + 1][..i] == anchors[..i];
      byId := byId[anchors[i].id := anchors[i]];
    }
    assert anchors[..|anchors|] == anchors;
  }

  method AppendPublicTwins(r: RecordDefinition, d: SealedDisclosure, byId: map<Text, PageAnchor>,
                           anchors: seq<PageAnchor>)
    returns (extended: seq<PageAnchor>)
    requires WellLinked(r) && d in r.disclosures
    requires forall id :: id in byId <==> Authored(r.anchors, id).Some?
    requires forall id :: id in byId ==> Authored(r.anchors, id) == Some(byId[id])
    ensures extended == anchors + CopiesOf(r, {}, d, d.anchorMappings)
  {
    hide WellLinked, Authored, VisibleIds;
    extended := anchors;
    var ms := d.anchorMappings;
    for i := 0 to |ms|
      invariant extended == anchors + CopiesOf(r, {}, d, ms[..i])
    {
      assert ms[..i + 1][..i] == ms[..i];
      StableCopyExists(r, {}, d, ms[i]);
      if ms[i].publicAnchorId in byId {
        extended := extended + [byId[ms[i].publicAnchorId].(id := ms[i].stableAnchorId)];
      }
    }
    assert ms[..|ms|] == ms;
  }

  method AppendAllTwins(r: RecordDefinition, byId: map<Text, PageAnchor>, anchors: seq<PageAnchor>)
    returns (extended: seq<PageAnchor>)
    requires WellLinked(r)
    requires forall id :: id in byId <==> Authored(r.anchors, id).Some?
    requires forall id :: id in byId ==> Authored(r.anchors, id) == Some(byId[id])
    ensures extended == anchors + StableCopies(r, {}, r.disclosures)
  {
    hide WellLinked, CopiesOf, Authored;
    extended := anchors;
    var ds := r.disclosures;
    for i := 0 to |ds|
      invariant extended == anchors + StableCopies(r, {}, ds[..i])
    {
      assert ds[..i + 1][..i] == ds[..i];
      extended := AppendPublicTwins(r, ds[i], byId, extended);
    }
    assert ds[..|ds|] == ds;
  }

  lemma {:induction false} PublicMeansNotSealed(r: RecordDefinition)
    requires WellLinked(r) && r.policy.Some?
    ensures VisibleDocuments(r, {}) == Filter(r.documents, (d: Document) => !d.isSealed)
    ensures VisibleDocket(r, {}) == Filter(r.docket, (e: DocketEntry) => e.documentId !in SealedIds(r.documents))
    ensures PhysicalAnchors(r, {}) == Filter(r.anchors, (a: PageAnchor) => a.documentId !in SealedIds(r.documents))
  {
    hide GoodDisclosing, GoodEntry, GoodDescriptors, GoodLinks, ParentGraph.HasCycle, VisibleIds, SealedIds,
         GoodDocuments;
    FilterAgrees(r.documents, (d: Document) => Visible(r, {}, d), (d: Document) => !d.isSealed);
    forall id | id in DocumentIds(r.documents) ensures id in VisibleIds(r, {}) <==> id !in SealedIds(r.documents) {
      SealedIsNotVisible(r, {}, id);
    }
    FilterAgrees(r.docket, (e: DocketEntry) => e.documentId in VisibleIds(r, {}),
                 (e: DocketEntry) => e.documentId !in SealedIds(r.documents));
    AnchorsResolve(r);
    FilterAgrees(r.anchors, (a: PageAnchor) => a.documentId in VisibleIds(r, {}),
                 (a: PageAnchor) => a.documentId !in SealedIds(r.documents));
  }

  lemma WithoutPolicyAllIsVisible(r: RecordDefinition, granted: set<Text>)
    requires WellLinked(r) && r.policy.None?
    ensures VisibleDocuments(r, granted) == r.documents
    ensures VisibleDocket(r, granted) == r.docket
    ensures VisibleAnchors(r, granted) == r.anchors
    ensures r.disclosures == []
  {
    hide GoodEntry, GoodDescriptors, GoodLinks, ParentGraph.HasCycle, GoodDocuments, GoodAnchor, Apart, Referenced;
    FilterKeepsAll(r.documents, (d: Document) => Visible(r, granted, d));
    assert VisibleIds(r, granted) == DocumentIds(r.documents);
    AnchorsResolve(r);
    hide VisibleIds, DocumentIds;
    FilterKeepsAll(r.docket, (e: DocketEntry) => e.documentId in VisibleIds(r, granted));
    FilterKeepsAll(r.anchors, (a: PageAnchor) => a.documentId in VisibleIds(r, granted));
  }

  lemma AnchorsResolve(r: RecordDefinition)
    requires WellLinked(r)
    ensures forall a :: a in r.anchors ==> a.documentId in DocumentIds(r.documents)
  {
    hide GoodDisclosing, GoodDescriptors, GoodLinks, ParentGraph.HasCycle, GoodDocuments, GoodDocket, Apart, Bounded;
    forall a | a in r.anchors ensures a.documentId in DocumentIds(r.documents) {
      assert GoodAnchor(a, r.documents, EntryIds(r.docket));
    }
  }

  lemma NoGrantNoStrand(r: RecordDefinition)
    requires WellLinked(r)
    ensures ClosedUnderParents(VisibleDocket(r, {}))
  {
    DocketClosedExactlyWhen(r, {});
  }

  // For every record the workspace accepts, the public record has the documents, entries and anchors, in the order,
  // that the workspace shows without grants, and the parent of every entry.
  method PublicDefinition(r: RecordDefinition) returns (public: RecordDefinition)
    requires WellLinked(r)
    ensures public == RecordDefinition(VisibleDocuments(r, {}), VisibleDocket(r, {}), VisibleAnchors(r, {}), r.dockets,
                                       None, [])
    ensures ClosedUnderParents(public.docket)
  {
    hide WellLinked, VisibleDocuments, VisibleDocket, PhysicalAnchors, ClosedUnderParents, StableCopies, Authored;
    NoGrantNoStrand(r);
    public := r;
    if r.policy.None? {
      WithoutPolicyAllIsVisible(r, {});
      return;
    }
    var isSealed: set<Text> := SealedIds(r.documents);
    var byId := AuthoredAnchors(r.anchors);
    PublicMeansNotSealed(r);
    var documents := ErasedDocuments(r.documents);
    var docket := ErasedEntries(r.docket, isSealed);
    var anchors := ErasedAnchors(r.anchors, isSealed);
    anchors := AppendAllTwins(r, byId, anchors);
    public := RecordDefinition(documents, docket, anchors, r.dockets, None, []);
  }
}

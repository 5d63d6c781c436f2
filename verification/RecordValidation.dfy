/** The checks a record passes before the workspace holds it, one loop per kind of row. */
module RecordValidation {
  import opened Utf16Text
  import opened RecordModel
  import opened RecordRules
  import ParentGraph

  method CheckDescriptor(d: DocketDescriptor) returns (ok: bool)
    ensures ok <==> GoodDescriptor(d)
  {
    hide Bounded, Ascii;
    var types := {Ascii("district"), Ascii("appellate"), Ascii("agency"), Ascii("original")};
    ok := !(!Bounded(d.id, 160, false) || d.kind !in types || !Bounded(d.courtId, 160, true)
            || !Bounded(d.courtRef, 240, false) || !Bounded(d.publicDocketNumber, 120, false)
            || !Bounded(d.caption, 512, false));
  }

  method CheckDescriptors(dockets: seq<DocketDescriptor>) returns (ok: bool, ids: set<Text>)
    ensures ok <==> GoodDescriptors(dockets)
    ensures ok ==> ids == DescriptorIds(dockets)
  {
    hide GoodDescriptor;
    ids := {};
    for i := 0 to |dockets|
      invariant GoodDescriptors(dockets[..i])
      invariant ids == DescriptorIds(dockets[..i])
    {
      var d := dockets[i];
      assert dockets[..i + 1] == dockets[..i] + [d];
      var good := CheckDescriptor(d);
      if !good || d.id in ids {
        return false, ids;
      }
      ids := ids + {d.id};
    }
    assert dockets[..|dockets|] == dockets;
    ok := true;
  }

  method CheckDocuments(documents: seq<Document>, files: set<Text>)
    returns (error: Option<ErrorCode>, ids: set<Text>, isSealed: set<Text>, pages: map<Text, int>)
    ensures error.None? <==> GoodDocuments(documents) && AssetsPresent(documents, files)
    ensures error.Some? ==> DocumentsRejected(documents, files, error.value)
    ensures error.None? ==> ids == DocumentIds(documents) && isSealed == SealedIds(documents)
    ensures error.None? ==> forall d :: d in documents ==> d.id in pages && pages[d.id] == d.declaredPages
  {
    hide Bounded;
    ids, isSealed, pages := {}, {}, map[];
    for i := 0 to |documents|
      invariant GoodDocuments(documents[..i]) && AssetsPresent(documents[..i], files)
      invariant ids == DocumentIds(documents[..i])
      invariant isSealed == SealedIds(documents[..i])
      invariant forall d :: d in documents[..i] ==> d.id in pages && pages[d.id] == d.declaredPages
    {
      var d := documents[i];
      assert documents[..i + 1] == documents[..i] + [d];
      if !Bounded(d.id, 160, false) || !Bounded(d.title, 512, false) || d.declaredPages < 0 || d.id in ids {
        error := Some(InvalidDefinition);
        return;
      }
      ids, pages := ids + {d.id}, pages[d.id := d.declaredPages];
      if d.isSealed {
        isSealed := isSealed + {d.id};
      } else if d.filePath !in files {
        error := Some(MissingAsset);
        return;
      }
    }
    assert documents[..|documents|] == documents;
    error := None;
  }

  method CheckEntry(e: DocketEntry) returns (ok: bool)
    ensures ok <==> GoodEntry(e)
  {
    hide Bounded;
    if !Bounded(e.id, 160, false) || e.filedOn.None? || !Bounded(e.title, 512, false) || !Bounded(e.actor, 240, false)
       || !Bounded(e.description, 4096, false) || !Bounded(e.docketId, 160, true) || !Bounded(e.docketLabel, 120, true)
       || !Bounded(e.entryLabel, 120, true) || !Bounded(e.parentEntryId, 160, true)
       || !Bounded(e.relationship, 16, true) || |e.tags| > 32 {
      return false;
    }
    for i := 0 to |e.tags|
      invariant forall k :: 0 <= k < i ==> Bounded(e.tags[k], 64, false)
    {
      if !Bounded(e.tags[i], 64, false) {
        return false;
      }
    }
    ok := true;
  }

  lemma NoEntries(descriptorIds: set<Text>, documentIds: set<Text>)
    ensures GoodDocket([], descriptorIds, documentIds) && Indexes(map[], [])
  {
  }

  lemma GoodDocketStep(docket: seq<DocketEntry>, i: nat, descriptorIds: set<Text>, documentIds: set<Text>)
    requires i < |docket| && GoodDocket(docket[..i], descriptorIds, documentIds)
    ensures var e := docket[i];
            var named := GoodEntry(e) && e.id !in EntryIds(docket[..i]) && DescriptorResolves(e, descriptorIds);
            && (GoodDocket(docket[..i + 1], descriptorIds, documentIds) <==> named && e.documentId in documentIds)
            && (!named || e.documentId !in documentIds ==> !GoodDocket(docket, descriptorIds, documentIds))
            && (named ==> DocketRejected(docket, descriptorIds, documentIds, MissingDocument))
            && (!named ==> DocketRejected(docket, descriptorIds, documentIds, InvalidDefinition))
  {
    hide GoodEntry, DescriptorResolves;
  }

  lemma IndexStep(byId: map<Text, DocketEntry>, docket: seq<DocketEntry>, e: DocketEntry)
    requires Indexes(byId, docket)
    ensures e.id !in EntryIds(docket) ==> Indexes(byId[e.id := e], docket + [e])
  {
  }

  method CheckDocket(docket: seq<DocketEntry>, descriptorIds: set<Text>, documentIds: set<Text>)
    returns (error: Option<ErrorCode>, ids: set<Text>, filed: set<Text>, byId: map<Text, DocketEntry>)
    ensures error.None? <==> GoodDocket(docket, descriptorIds, documentIds)
    ensures error.Some? ==> DocketRejected(docket, descriptorIds, documentIds, error.value)
    ensures error.None? ==> ids == EntryIds(docket) && filed == FiledDocuments(docket) && Indexes(byId, docket)
  {
    hide GoodEntry, GoodDocket, Indexes, DocketRejected;
    NoEntries(descriptorIds, documentIds);
    ids, filed, byId := {}, {}, map[];
    for i := 0 to |docket|
      invariant GoodDocket(docket[..i], descriptorIds, documentIds)
      invariant ids == EntryIds(docket[..i]) && filed == FiledDocuments(docket[..i])
      invariant Indexes(byId, docket[..i])
    {
      var e := docket[i];
      assert docket[..i + 1] == docket[..i] + [e];
      GoodDocketStep(docket, i, descriptorIds, documentIds);
      IndexStep(byId, docket[..i], e);
      var good := CheckEntry(e);
      if !good || e.id in ids {
        error := Some(InvalidDefinition);
        return;
      }
      ids, byId := ids + {e.id}, byId[e.id := e];
      if e.docketId != [] && e.docketId !in descriptorIds {
        error := Some(InvalidDefinition);
        return;
      }
      if e.documentId !in documentIds {
        error := Some(MissingDocument);
        return;
      }
      filed := filed + {e.documentId};
    }
    assert docket[..|docket|] == docket;
    error := None;
  }

  method CheckLink(docket: seq<DocketEntry>, byId: map<Text, DocketEntry>, e: DocketEntry, hasPolicy: bool,
                   isSealed: set<Text>)
    returns (ok: bool)
    requires Indexes(byId, docket)
    ensures ok <==> GoodLink(docket, e, hasPolicy, isSealed)
  {
    if (e.parentEntryId == []) != (e.relationship == []) {
      return false;
    }
    if e.parentEntryId == [] {
      return true;
    }
    if e.parentEntryId !in byId || e.parentEntryId == e.id || byId[e.parentEntryId].docketId != e.docketId
       || e.relationship !in {Ascii("attachment"), Ascii("amendment"), Ascii("supplement"), Ascii("component")} {
      return false;
    }
    var p := byId[e.parentEntryId];
    ok := !(hasPolicy && e.documentId !in isSealed && p.documentId in isSealed);
  }

  method CheckParentLinks(docket: seq<DocketEntry>, byId: map<Text, DocketEntry>, hasPolicy: bool, isSealed: set<Text>)
    returns (ok: bool, links: map<Text, Text>)
    requires Indexes(byId, docket)
    ensures ok <==> GoodLinks(docket, hasPolicy, isSealed)
    ensures ok ==> links == ParentLinks(docket)
  {
    hide GoodLink, Indexes;
    links := map[];
    for i := 0 to |docket|
      invariant forall k :: 0 <= k < i ==> GoodLink(docket, docket[k], hasPolicy, isSealed)
      invariant links == ParentLinks(docket[..i])
    {
      var e := docket[i];
      assert docket[..i + 1][..i] == docket[..i];
      var good := CheckLink(docket, byId, e, hasPolicy, isSealed);
      if !good {
        return false, links;
      }
      if e.parentEntryId != [] {
        links := links[e.id := e.parentEntryId];
      }
    }
    assert docket[..|docket|] == docket;
    ok := true;
  }

  method CheckParentChains(docket: seq<DocketEntry>, links: map<Text, Text>) returns (ok: bool)
    requires links == ParentLinks(docket)
    ensures ok <==> !ParentGraph.HasCycle(links)
  {
    var entries := seq(|docket|, i requires 0 <= i < |docket| => docket[i].id);
    forall id | id in links ensures id in entries {
      var i :| 0 <= i < |docket| && docket[i].id == id;
      assert entries[i] == id;
    }
    var cyclic, steps := ParentGraph.FindCycle(links, entries);
    ok := !cyclic;
  }

  method CheckReferenced(documents: seq<Document>, docket: seq<DocketEntry>, filed: set<Text>) returns (ok: bool)
    requires filed == FiledDocuments(docket)
    ensures ok <==> Referenced(documents, docket)
  {
    for i := 0 to |documents|
      invariant forall k :: 0 <= k < i ==> documents[k].id in filed
    {
      if documents[i].id !in filed {
        return false;
      }
    }
    ok := true;
  }

  method CheckAnchors(anchors: seq<PageAnchor>, documents: seq<Document>, docketIds: set<Text>, documentIds: set<Text>,
                      pages: map<Text, int>)
    returns (ok: bool, ids: set<Text>, byId: map<Text, PageAnchor>)
    requires GoodDocuments(documents) && documentIds == DocumentIds(documents)
    requires forall d :: d in documents ==> d.id in pages && pages[d.id] == d.declaredPages
    ensures ok <==> GoodAnchors(anchors, documents, docketIds)
    ensures ok ==> ids == AnchorIds(anchors) && Locates(byId, anchors)
  {
    hide Bounded, PageExists, GoodDocument;
    var labels: set<Text> := {};
    ids, byId := {}, map[];
    for i := 0 to |anchors|
      invariant GoodAnchors(anchors[..i], documents, docketIds)
      invariant ids == AnchorIds(anchors[..i]) && Locates(byId, anchors[..i])
      invariant labels == set a <- anchors[..i] | a.citationLabel != [] :: a.citationLabel
    {
      var a := anchors[i];
      assert anchors[..i + 1] == anchors[..i] + [a];
      PageLookup(documents, a, pages);
      if !Bounded(a.id, 160, false) || !Bounded(a.documentId, 160, false) || !Bounded(a.citationLabel, 120, true)
         || a.pageIndex < 0 || a.id in ids || a.id in documentIds || a.id in docketIds
         || a.documentId !in documentIds
         || (pages[a.documentId] > 0 && a.pageIndex >= pages[a.documentId])
         || (a.citationLabel != [] && a.citationLabel in labels) {
        return false, ids, byId;
      }
      ids, byId := ids + {a.id}, byId[a.id := a];
      if a.citationLabel != [] {
        labels := labels + {a.citationLabel};
      }
    }
    assert anchors[..|anchors|] == anchors;
    ok := true;
  }

  lemma PageLookup(documents: seq<Document>, a: PageAnchor, pages: map<Text, int>)
    requires GoodDocuments(documents)
    requires forall d :: d in documents ==> d.id in pages && pages[d.id] == d.declaredPages
    ensures PageExists(documents, a) <==>
            a.documentId in DocumentIds(documents)
            && !(pages[a.documentId] > 0 && a.pageIndex >= pages[a.documentId])
  {
    if a.documentId in DocumentIds(documents) {
      var d :| d in documents && d.id == a.documentId;
      assert GoodDocument(d);
    }
  }

  method CheckOneDocket(docket: seq<DocketEntry>) returns (ok: bool, docketOf: map<Text, Text>)
    ensures ok <==> OneDocketPerDocument(docket)
    ensures ok ==> docketOf.Keys == FiledDocuments(docket)
    ensures ok ==> forall e :: e in docket ==> docketOf[e.documentId] == e.docketId
  {
    docketOf := map[];
    for i := 0 to |docket|
      invariant OneDocketPerDocument(docket[..i])
      invariant docketOf.Keys == FiledDocuments(docket[..i])
      invariant forall e :: e in docket[..i] ==> docketOf[e.documentId] == e.docketId
    {
      var e := docket[i];
      assert docket[..i + 1] == docket[..i] + [e];
      if e.documentId !in docketOf {
        docketOf := docketOf[e.documentId := e.docketId];
      } else if docketOf[e.documentId] != e.docketId {
        return false, docketOf;
      }
    }
    assert docket[..|docket|] == docket;
    ok := true;
  }

  // ---- Disclosures ----

  method CheckRequirements(items: seq<Text>) returns (ok: bool)
    requires |items| <= 3
    ensures ok <==> TypedRequirements(items)
  {
    var seen: set<Text> := {};
    for i := 0 to |items|
      invariant TypedRequirements(items[..i])
      invariant seen == set x <- items[..i]
    {
      assert items[..i + 1] == items[..i] + [items[i]];
      if items[i] !in {Ascii("motion"), Ascii("certificate"), Ascii("redacted_counterpart")} || items[i] in seen {
        return false;
      }
      seen := seen + {items[i]};
    }
    assert items[..|items|] == items;
    ok := true;
  }

  method CheckPublicDocument(documents: seq<Document>, byId: map<Text, Document>, id: Text, sealedId: Text)
    returns (ok: bool)
    requires Holds(byId, documents)
    requires IsSealed(documents, sealedId)
    ensures ok <==> (id != [] ==> IsPublic(documents, id))
  {
    ok := id == [] || (id in byId && !byId[id].isSealed && id != sealedId);
  }

  lemma AnchorLookup(anchors: seq<PageAnchor>, byId: map<Text, PageAnchor>, id: Text, documentId: Text)
    requires Locates(byId, anchors)
    ensures AnchorIn(anchors, id, documentId) <==> id in byId && byId[id].documentId == documentId
  {
  }

  lemma NoMapping()
    ensures StableOf([]) == {} && SealedOf([]) == {} && PublicOf([]) == {}
  {
  }

  lemma OneMoreMapping(ms: seq<TwinAnchor>, m: TwinAnchor)
    ensures StableOf(ms + [m]) == StableOf(ms) + {m.stableAnchorId}
    ensures SealedOf(ms + [m]) == SealedOf(ms) + {m.sealedAnchorId}
    ensures PublicOf(ms + [m]) == PublicOf(ms) + {m.publicAnchorId}
  {
  }

  method CheckMappings(r: RecordDefinition, before: seq<SealedDisclosure>, d: SealedDisclosure,
                       byId: map<Text, PageAnchor>, anchorIds: set<Text>, documentIds: set<Text>, docketIds: set<Text>,
                       stable0: set<Text>, sealed0: set<Text>, public0: set<Text>)
    returns (ok: bool, stable: set<Text>, mappedSealed: set<Text>, mappedPublic: set<Text>)
    requires Locates(byId, r.anchors)
    requires anchorIds == AnchorIds(r.anchors) && documentIds == DocumentIds(r.documents)
             && docketIds == EntryIds(r.docket)
    requires stable0 == StableIds(before) && sealed0 == MappedSealed(before) && public0 == MappedPublic(before)
    ensures ok <==> forall k :: 0 <= k < |d.anchorMappings| ==> GoodMapping(r, before, d, k)
    ensures ok ==> stable == StableIds(before) + StableOf(d.anchorMappings)
    ensures ok ==> mappedSealed == MappedSealed(before) + SealedOf(d.anchorMappings)
    ensures ok ==> mappedPublic == MappedPublic(before) + PublicOf(d.anchorMappings)
  {
    hide Bounded, StableIds, MappedSealed, MappedPublic, DocumentIds, EntryIds, AnchorIds, AnchorIn, Locates, StableOf,
         SealedOf, PublicOf;
    var ms := d.anchorMappings;
    stable, mappedSealed, mappedPublic := stable0, sealed0, public0;
    NoMapping();
    for i := 0 to |ms|
      invariant forall k :: 0 <= k < i ==> GoodMapping(r, before, d, k)
      invariant stable == stable0 + StableOf(ms[..i])
      invariant mappedSealed == sealed0 + SealedOf(ms[..i])
      invariant mappedPublic == public0 + PublicOf(ms[..i])
    {
      var m := ms[i];
      assert ms[..i + 1] == ms[..i] + [m];
      AnchorLookup(r.anchors, byId, m.sealedAnchorId, d.sealedDocumentId);
      AnchorLookup(r.anchors, byId, m.publicAnchorId, d.publicDocumentId);
      if !Bounded(m.stableAnchorId, 160, false) || !Bounded(m.sealedAnchorId, 160, false)
         || !Bounded(m.publicAnchorId, 160, false)
         || m.stableAnchorId in stable || m.stableAnchorId in anchorIds || m.stableAnchorId in documentIds
         || m.stableAnchorId in docketIds || m.sealedAnchorId in mappedSealed || m.publicAnchorId in mappedPublic
         || m.sealedAnchorId !in byId || m.publicAnchorId !in byId
         || byId[m.sealedAnchorId].documentId != d.sealedDocumentId
         || byId[m.publicAnchorId].documentId != d.publicDocumentId {
        assert !GoodMapping(r, before, d, i);
        return false, stable, mappedSealed, mappedPublic;
      }
      OneMoreMapping(ms[..i], m);
      stable, mappedSealed, mappedPublic :=
        stable + {m.stableAnchorId}, mappedSealed + {m.sealedAnchorId}, mappedPublic + {m.publicAnchorId};
    }
    assert ms[..|ms|] == ms;
    ok := true;
  }

  // What the disclosure loop looks its rows up in.
  datatype Lookup = Lookup(documents: map<Text, Document>, anchors: map<Text, PageAnchor>, documentIds: set<Text>,
                           docketIds: set<Text>, anchorIds: set<Text>, docketOf: map<Text, Text>)
  {
    ghost predicate For(r: RecordDefinition) {
      && Holds(documents, r.documents)
      && Locates(anchors, r.anchors)
      && documentIds == DocumentIds(r.documents)
      && docketIds == EntryIds(r.docket)
      && anchorIds == AnchorIds(r.anchors)
      && docketOf.Keys == FiledDocuments(r.docket)
      && (forall e :: e in r.docket ==> docketOf[e.documentId] == e.docketId)
    }
  }

  // The identifiers used up by the disclosures already checked.
  datatype Used = Used(isSealed: set<Text>, disclosures: set<Text>, counterparts: set<Text>, stable: set<Text>,
                       mappedSealed: set<Text>, mappedPublic: set<Text>)
  {
    ghost predicate By(before: seq<SealedDisclosure>) {
      && isSealed == Permitted(before)
      && disclosures == DisclosureIds(before)
      && counterparts == Counterparts(before)
      && stable == StableIds(before)
      && mappedSealed == MappedSealed(before)
      && mappedPublic == MappedPublic(before)
    }
  }

  method CheckIdentity(r: RecordDefinition, look: Lookup, used: Used, before: seq<SealedDisclosure>,
                       d: SealedDisclosure)
    returns (ok: bool)
    requires look.For(r) && used.By(before)
    ensures ok <==> GoodIdentity(r, before, d) && |d.requiredItems| <= 3
  {
    hide Bounded, Permitted, DisclosureIds, Counterparts, StableIds, MappedSealed, MappedPublic, DocumentIds, EntryIds,
      AnchorIds, FiledDocuments, Locates;
    assert IsSealed(r.documents, d.sealedDocumentId) <==>
           d.sealedDocumentId in look.documents && look.documents[d.sealedDocumentId].isSealed;
    ok := !(!Bounded(d.disclosureId, 160, false) || d.disclosureId in used.disclosures
            || d.disclosureId in used.stable || d.disclosureId in look.documentIds
            || d.disclosureId in look.docketIds || d.disclosureId in look.anchorIds
            || !Bounded(d.sealedDocumentId, 160, false) || !Bounded(d.publicDocumentId, 160, true)
            || !Bounded(d.motionDocumentId, 160, true) || !Bounded(d.certificateDocumentId, 160, true)
            || !Bounded(d.authorityId, 160, false) || d.sealedDocumentId !in look.documents
            || !look.documents[d.sealedDocumentId].isSealed || d.sealedDocumentId in used.isSealed
            || |d.requiredItems| > 3);
  }

  lemma DocketLookup(r: RecordDefinition, look: Lookup, x: Text, y: Text)
    requires look.For(r) && x in FiledDocuments(r.docket) && y in FiledDocuments(r.docket)
    ensures look.docketOf[x] == look.docketOf[y] <==> SameDocket(r.docket, x, y)
  {
    var e :| e in r.docket && e.documentId == x;
    var f :| f in r.docket && f.documentId == y;
  }

  method CheckRule(r: RecordDefinition, look: Lookup, used: Used, before: seq<SealedDisclosure>, d: SealedDisclosure)
    returns (ok: bool)
    requires look.For(r) && used.By(before) && Referenced(r.documents, r.docket)
    ensures ok <==> GoodRule(r, before, d)
  {
    hide Bounded, SameDocket, TypedRequirements, Permitted, DisclosureIds, StableIds, MappedSealed, MappedPublic,
      DocumentIds, EntryIds, AnchorIds, FiledDocuments, Locates, GoodIdentity, Counterparts;
    ok := CheckIdentity(r, look, used, before, d);
    if !ok {
      TooManyAreUntyped(d.requiredItems);
      return;
    }
    SealedRule(r, before, d);
    ok := CheckRequirements(d.requiredItems);
    if !ok { return; }
    ok := CheckPublicDocument(r.documents, look.documents, d.publicDocumentId, d.sealedDocumentId);
    if !ok { return; }
    ok := CheckPublicDocument(r.documents, look.documents, d.motionDocumentId, d.sealedDocumentId);
    if !ok { return; }
    ok := CheckPublicDocument(r.documents, look.documents, d.certificateDocumentId, d.sealedDocumentId);
    if !ok { return; }
    if d.publicDocumentId != [] {
      FiledWhenDeclared(r, d.publicDocumentId);
      FiledWhenDeclared(r, d.sealedDocumentId);
      DocketLookup(r, look, d.publicDocumentId, d.sealedDocumentId);
      ok := !(d.publicDocumentId in used.counterparts
              || look.docketOf[d.publicDocumentId] != look.docketOf[d.sealedDocumentId]);
      if !ok { return; }
    }
    ok := CheckSupports(d);
  }

  lemma TooManyAreUntyped(items: seq<Text>)
    ensures TypedRequirements(items) ==> |items| <= 3
  {
  }

  lemma SealedRule(r: RecordDefinition, before: seq<SealedDisclosure>, d: SealedDisclosure)
    ensures GoodIdentity(r, before, d) ==> IsSealed(r.documents, d.sealedDocumentId)
  {
  }

  lemma FiledWhenDeclared(r: RecordDefinition, id: Text)
    requires Referenced(r.documents, r.docket)
    requires IsSealed(r.documents, id) || IsPublic(r.documents, id)
    ensures id in FiledDocuments(r.docket)
  {
    var d :| d in r.documents && d.id == id;
  }

  method CheckSupports(d: SealedDisclosure) returns (ok: bool)
    ensures ok <==> DistinctSupports(d)
  {
    var supports := [d.publicDocumentId, d.motionDocumentId, d.certificateDocumentId];
    var seen: set<Text> := {};
    for i := 0 to 3
      invariant forall j, k :: 0 <= j < k < i && supports[j] != [] ==> supports[j] != supports[k]
      invariant seen == set x <- supports[..i] | x != []
    {
      assert supports[..i + 1] == supports[..i] + [supports[i]];
      if supports[i] != [] && supports[i] in seen {
        var j :| 0 <= j < i && supports[j] == supports[i];
        return false;
      }
      if supports[i] != [] {
        seen := seen + {supports[i]};
      }
    }
    ok := true;
    assert supports[0] != [] ==> supports[0] != supports[1];
    assert supports[0] != [] ==> supports[0] != supports[2];
    assert supports[1] != [] ==> supports[1] != supports[2];
  }

  lemma UsedStep(before: seq<SealedDisclosure>, d: SealedDisclosure, used: Used, stable: set<Text>,
                 mappedSealed: set<Text>, mappedPublic: set<Text>)
    requires used.By(before)
    requires stable == StableIds(before) + StableOf(d.anchorMappings)
    requires mappedSealed == MappedSealed(before) + SealedOf(d.anchorMappings)
    requires mappedPublic == MappedPublic(before) + PublicOf(d.anchorMappings)
    ensures Used(used.isSealed + {d.sealedDocumentId}, used.disclosures + {d.disclosureId},
                 used.counterparts + (if d.publicDocumentId != [] then {d.publicDocumentId} else {}),
                 stable, mappedSealed, mappedPublic).By(before + [d])
  {
  }

  method CheckDisclosures(r: RecordDefinition, look: Lookup) returns (error: Option<ErrorCode>, covered: set<Text>)
    requires look.For(r) && Referenced(r.documents, r.docket)
    ensures error.None? <==> GoodDisclosures(r, r.disclosures)
    ensures error.Some? ==> DisclosuresRejected(r, error.value)
    ensures error.None? ==> covered == Permitted(r.disclosures)
  {
    hide GoodRule, GoodMapping;
    var ds := r.disclosures;
    var used := Used({}, {}, {}, {}, {}, {});
    for i := 0 to |ds|
      invariant GoodDisclosures(r, ds[..i])
      invariant used.By(ds[..i])
    {
      hide Used.By, Lookup.For;
      var d := ds[i];
      assert ds[..i + 1] == ds[..i] + [d];
      GoodDisclosuresStep(r, i);
      var good := CheckRule(r, look, used, ds[..i], d);
      if !good {
        return Some(InvalidDefinition), {};
      }
      if d.publicDocumentId == [] && d.anchorMappings != [] {
        return Some(InvalidPageAnchor), {};
      }
      var stable, mappedSealed, mappedPublic;
      good, stable, mappedSealed, mappedPublic := CheckTwins(r, look, used, ds[..i], d);
      if !good {
        return Some(InvalidPageAnchor), {};
      }
      UsedStep(ds[..i], d, used, stable, mappedSealed, mappedPublic);
      used := Used(used.isSealed + {d.sealedDocumentId}, used.disclosures + {d.disclosureId},
                   used.counterparts + (if d.publicDocumentId != [] then {d.publicDocumentId} else {}),
                   stable, mappedSealed, mappedPublic);
    }
    assert ds[..|ds|] == ds;
    return None, used.isSealed;
  }

  method CheckTwins(r: RecordDefinition, look: Lookup, used: Used, before: seq<SealedDisclosure>, d: SealedDisclosure)
    returns (ok: bool, stable: set<Text>, mappedSealed: set<Text>, mappedPublic: set<Text>)
    requires look.For(r) && used.By(before)
    ensures ok <==> forall k :: 0 <= k < |d.anchorMappings| ==> GoodMapping(r, before, d, k)
    ensures ok ==> stable == StableIds(before) + StableOf(d.anchorMappings)
    ensures ok ==> mappedSealed == MappedSealed(before) + SealedOf(d.anchorMappings)
    ensures ok ==> mappedPublic == MappedPublic(before) + PublicOf(d.anchorMappings)
  {
    hide GoodMapping;
    ok, stable, mappedSealed, mappedPublic :=
      CheckMappings(r, before, d, look.anchors, look.anchorIds, look.documentIds, look.docketIds,
                    used.stable, used.mappedSealed, used.mappedPublic);
  }

  lemma GoodDisclosuresStep(r: RecordDefinition, i: nat)
    requires i < |r.disclosures| && GoodDisclosures(r, r.disclosures[..i])
    ensures GoodDisclosures(r, r.disclosures[..i + 1]) <==>
            GoodRule(r, r.disclosures[..i], r.disclosures[i]) && GoodMappings(r, r.disclosures[..i], r.disclosures[i])
    ensures !GoodRule(r, r.disclosures[..i], r.disclosures[i])
            || !GoodMappings(r, r.disclosures[..i], r.disclosures[i]) ==>
              !GoodDisclosures(r, r.disclosures)
    ensures !GoodRule(r, r.disclosures[..i], r.disclosures[i]) ==> DisclosuresRejected(r, InvalidDefinition)
    ensures GoodRule(r, r.disclosures[..i], r.disclosures[i]) ==> DisclosuresRejected(r, InvalidPageAnchor)
  {
    hide GoodRule, GoodMappings;
    var ds := r.disclosures;
    assert forall k :: 0 <= k <= i ==> ds[..i + 1][..k] == ds[..k];
    assert forall k :: 0 <= k < i ==> ds[..i][..k] == ds[..k];
  }

  method CheckCoverage(documents: seq<Document>, disclosures: seq<SealedDisclosure>, covered: set<Text>)
    returns (ok: bool)
    requires covered == Permitted(disclosures)
    ensures ok <==> EverySealedHasARule(documents, disclosures)
  {
    for i := 0 to |documents|
      invariant forall k :: 0 <= k < i && documents[k].isSealed ==> documents[k].id in covered
    {
      if documents[i].isSealed && documents[i].id !in covered {
        return false;
      }
    }
    ok := true;
  }

  method IndexDocuments(documents: seq<Document>) returns (byId: map<Text, Document>)
    requires GoodDocuments(documents)
    ensures Holds(byId, documents)
  {
    hide GoodDocument;
    byId := map[];
    for i := 0 to |documents|
      invariant forall k :: 0 <= k < i ==> documents[k].id in byId && byId[documents[k].id] == documents[k]
      invariant forall id :: id in byId ==> byId[id] in documents && byId[id].id == id
    {
      byId := byId[documents[i].id := documents[i]];
    }
  }

  // ---- The whole validator ----

  // A record is accepted exactly when it is acceptable; the first rule that fails decides the error.
  method Validate(r: RecordDefinition, files: set<Text>) returns (error: Option<ErrorCode>)
    ensures error.None? <==> Acceptable(r, files)
    ensures error.Some? ==> RejectedWith(r, files, error.value)
  {
    hide GoodDescriptors, GoodDocuments, AssetsPresent, GoodDocket, GoodLinks, Referenced, GoodAnchors, GoodPolicy,
      OneDocketPerDocument, GoodDisclosures, EverySealedHasARule, ParentGraph.HasCycle, DocumentsRejected,
      DocketRejected, DisclosuresRejected, Lookup.For;
    if r.documents == [] || r.docket == [] {
      return Some(InvalidDefinition);
    }
    var ok, descriptorIds := CheckDescriptors(r.dockets);
    if !ok {
      return Some(InvalidDefinition);
    }
    var documentIds, isSealed, pages;
    error, documentIds, isSealed, pages := CheckDocuments(r.documents, files);
    if error.Some? {
      return;
    }
    var docketIds, filed, byId;
    error, docketIds, filed, byId := CheckDocket(r.docket, descriptorIds, documentIds);
    if error.Some? {
      return;
    }
    var links;
    ok, links := CheckParentLinks(r.docket, byId, r.policy.Some?, isSealed);
    if !ok {
      return Some(InvalidDefinition);
    }
    ok := CheckParentChains(r.docket, links);
    if !ok {
      return Some(InvalidDefinition);
    }
    ok := CheckReferenced(r.documents, r.docket, filed);
    if !ok {
      return Some(OrphanDocument);
    }
    var anchorIds, anchors;
    ok, anchorIds, anchors := CheckAnchors(r.anchors, r.documents, docketIds, documentIds, pages);
    if !ok {
      return Some(InvalidPageAnchor);
    }
    error := CheckDisclosing(r, documentIds, docketIds, anchorIds, anchors);
  }

  method CheckDisclosing(r: RecordDefinition, documentIds: set<Text>, docketIds: set<Text>, anchorIds: set<Text>,
                         anchors: map<Text, PageAnchor>)
    returns (error: Option<ErrorCode>)
    requires GoodDocuments(r.documents) && Referenced(r.documents, r.docket) && Locates(anchors, r.anchors)
    requires documentIds == DocumentIds(r.documents) && docketIds == EntryIds(r.docket)
             && anchorIds == AnchorIds(r.anchors)
    ensures error.None? <==> GoodDisclosing(r) && (r.policy.Some? ==> r.disclosures != [])
    ensures error.Some? ==>
              if r.policy.None? then r.disclosures != [] && error.value == InvalidDefinition
              else if !GoodPolicy(r.policy.value) || r.disclosures == [] || !OneDocketPerDocument(r.docket) then
                error.value == InvalidDefinition
              else if !GoodDisclosures(r, r.disclosures) then DisclosuresRejected(r, error.value)
              else !EverySealedHasARule(r.documents, r.disclosures) && error.value == InvalidDefinition
  {
    hide GoodDisclosures, OneDocketPerDocument, EverySealedHasARule, DisclosuresRejected, Bounded, Referenced;
    if r.policy.None? {
      return if r.disclosures != [] then Some(InvalidDefinition) else None;
    }
    var policy := r.policy.value;
    if !Bounded(policy.recordId, 160, false) || !Bounded(policy.policyId, 160, false)
       || policy.unauthorizedProjection != Ascii("public_counterparts_only")
       || policy.authorizedProjection != Ascii("public_and_authorized_sealed")
       || policy.sealedAssetAccess != Ascii("session_event_grant_required") || r.disclosures == [] {
      return Some(InvalidDefinition);
    }
    hide GoodPolicy;
    var documents := IndexDocuments(r.documents);
    var ok, docketOf := CheckOneDocket(r.docket);
    if !ok {
      return Some(InvalidDefinition);
    }
    var look := Lookup(documents, anchors, documentIds, docketIds, anchorIds, docketOf);
    var covered;
    error, covered := CheckDisclosures(r, look);
    if error.Some? {
      return;
    }
    ok := CheckCoverage(r.documents, r.disclosures, covered);
    return if ok then None else Some(InvalidDefinition);
  }
}

/** What a session may see of a record, for every set of granted documents. */
module RecordProjection {
  import opened Utf16Text
  import opened RecordModel
  import opened RecordRules
  import ParentGraph

  function Filter<T(!new)>(s: seq<T>, keep: T -> bool): (kept: seq<T>)
    ensures forall x :: x in kept <==> x in s && keep(x)
  {
    if s == [] then []
    else
      var n := |s| - 1;
      assert s == s[..n] + [s[n]];
      Filter(s[..n], keep) + if keep(s[n]) then [s[n]] else []
  }

  lemma {:induction false} FilterAgrees<T(!new)>(s: seq<T>, p: T -> bool, q: T -> bool)
    requires forall x :: x in s ==> p(x) == q(x)
    ensures Filter(s, p) == Filter(s, q)
  {
    if s != [] {
      FilterAgrees(s[..|s| - 1], p, q);
    }
  }

  lemma {:induction false} FilterKeepsAll<T(!new)>(s: seq<T>, p: T -> bool)
    requires forall x :: x in s ==> p(x)
    ensures Filter(s, p) == s
  {
    if s != [] {
      FilterKeepsAll(s[..|s| - 1], p);
      assert s == s[..|s| - 1] + [s[|s| - 1]];
    }
  }

  // ---- The projection for a set of granted documents ----

  predicate Visible(r: RecordDefinition, granted: set<Text>, d: Document) {
    r.policy.None? || !d.isSealed || d.id in granted
  }

  function VisibleIds(r: RecordDefinition, granted: set<Text>): set<Text> {
    set d <- r.documents | Visible(r, granted, d) :: d.id
  }

  function VisibleDocuments(r: RecordDefinition, granted: set<Text>): seq<Document> {
    Filter(r.documents, (d: Document) => Visible(r, granted, d))
  }

  function VisibleDocket(r: RecordDefinition, granted: set<Text>): seq<DocketEntry> {
    Filter(r.docket, (e: DocketEntry) => e.documentId in VisibleIds(r, granted))
  }

  function PhysicalAnchors(r: RecordDefinition, granted: set<Text>): seq<PageAnchor> {
    Filter(r.anchors, (a: PageAnchor) => a.documentId in VisibleIds(r, granted))
  }

  // The authored anchor with this identifier; the last one wins.
  function Authored(anchors: seq<PageAnchor>, id: Text): (found: Option<PageAnchor>)
    ensures found.Some? ==> found.value in anchors && found.value.id == id
    ensures found.None? ==> id !in AnchorIds(anchors)
  {
    if anchors == [] then None
    else
      var n := |anchors| - 1;
      assert anchors == anchors[..n] + [anchors[n]];
      if anchors[n].id == id then Some(anchors[n]) else Authored(anchors[..n], id)
  }

  function TwinSide(granted: set<Text>, d: SealedDisclosure, m: TwinAnchor): Text {
    if d.sealedDocumentId in granted then m.sealedAnchorId else m.publicAnchorId
  }

  // The stable copy of a twin: the anchor on the sealed page if the document is granted, on the public page if not.
  function StableCopy(r: RecordDefinition, granted: set<Text>, d: SealedDisclosure, m: TwinAnchor): Option<PageAnchor> {
    match Authored(r.anchors, TwinSide(granted, d, m))
    case None => None
    case Some(physical) =>
      if physical.documentId in VisibleIds(r, granted) then Some(physical.(id := m.stableAnchorId)) else None
  }

  function Listed<T>(x: Option<T>): seq<T> {
    match x case None => [] case Some(v) => [v]
  }

  function CopiesOf(r: RecordDefinition, granted: set<Text>, d: SealedDisclosure,
                    mappings: seq<TwinAnchor>): seq<PageAnchor>
  {
    if mappings == [] then []
    else
      var n := |mappings| - 1;
      CopiesOf(r, granted, d, mappings[..n]) + Listed(StableCopy(r, granted, d, mappings[n]))
  }

  function StableCopies(r: RecordDefinition, granted: set<Text>, disclosures: seq<SealedDisclosure>): seq<PageAnchor> {
    if disclosures == [] then []
    else
      var n := |disclosures| - 1;
      StableCopies(r, granted, disclosures[..n]) + CopiesOf(r, granted, disclosures[n], disclosures[n].anchorMappings)
  }

  function VisibleAnchors(r: RecordDefinition, granted: set<Text>): seq<PageAnchor> {
    PhysicalAnchors(r, granted) + if r.policy.Some? then StableCopies(r, granted, r.disclosures) else []
  }

  // ---- What is in it ----

  lemma {:induction false} AmongCopiesOf(r: RecordDefinition, granted: set<Text>, d: SealedDisclosure,
                                         mappings: seq<TwinAnchor>, a: PageAnchor)
    ensures a in CopiesOf(r, granted, d, mappings) <==>
            exists m :: m in mappings && StableCopy(r, granted, d, m) == Some(a)
  {
    hide StableCopy;
    if mappings != [] {
      var n := |mappings| - 1;
      AmongCopiesOf(r, granted, d, mappings[..n], a);
      assert forall m :: m in mappings <==> m in mappings[..n] || m == mappings[n];
    }
  }

  ghost predicate CopyAmong(r: RecordDefinition, granted: set<Text>, disclosures: seq<SealedDisclosure>,
                            a: PageAnchor)
  {
    exists d, m :: d in disclosures && m in d.anchorMappings && StableCopy(r, granted, d, m) == Some(a)
  }

  lemma {:induction false} AmongStableCopies(r: RecordDefinition, granted: set<Text>,
                                             disclosures: seq<SealedDisclosure>, a: PageAnchor)
    ensures a in StableCopies(r, granted, disclosures) <==> CopyAmong(r, granted, disclosures, a)
  {
    hide StableCopy, CopiesOf;
    if disclosures != [] {
      var n := |disclosures| - 1;
      AmongStableCopies(r, granted, disclosures[..n], a);
      AmongCopiesOf(r, granted, disclosures[n], disclosures[n].anchorMappings, a);
      assert disclosures == disclosures[..n] + [disclosures[n]];
    }
  }

  lemma AmongVisibleAnchors(r: RecordDefinition, granted: set<Text>, a: PageAnchor)
    ensures a in VisibleAnchors(r, granted) <==>
            || (a in r.anchors && a.documentId in VisibleIds(r, granted))
            || (r.policy.Some? && CopyAmong(r, granted, r.disclosures, a))
  {
    AmongStableCopies(r, granted, r.disclosures, a);
  }

  // ---- Consequences of the rules ----

  lemma OneDocumentPerId(r: RecordDefinition, c: Document, d: Document)
    requires GoodDocuments(r.documents) && c in r.documents && d in r.documents
    ensures c.id == d.id ==> c == d
  {
    var j :| 0 <= j < |r.documents| && r.documents[j] == c;
    var k :| 0 <= k < |r.documents| && r.documents[k] == d;
  }

  lemma OneEntryPerId(r: RecordDefinition, e: DocketEntry, f: DocketEntry)
    requires GoodGraph(r) && e in r.docket && f in r.docket
    ensures e.id == f.id ==> e == f
  {
    hide GoodEntry, GoodDocuments, GoodAnchors, GoodLinks, GoodDescriptors, Referenced, ParentGraph.HasCycle;
    var j :| 0 <= j < |r.docket| && r.docket[j] == e;
    var k :| 0 <= k < |r.docket| && r.docket[k] == f;
  }

  lemma OneAnchorPerIdAndLabel(r: RecordDefinition, a: PageAnchor, b: PageAnchor)
    requires GoodGraph(r) && a in r.anchors && b in r.anchors
    ensures a.id == b.id ==> a == b
    ensures a.citationLabel != [] && a.citationLabel == b.citationLabel ==> a == b
  {
    hide GoodEntry, GoodDocuments, GoodDocket, GoodLinks, GoodDescriptors, GoodAnchor, Referenced, ParentGraph.HasCycle;
    var j :| 0 <= j < |r.anchors| && r.anchors[j] == a;
    var k :| 0 <= k < |r.anchors| && r.anchors[k] == b;
    if j < k {
      assert Apart(r.anchors[j], r.anchors[k]);
    } else if k < j {
      assert Apart(r.anchors[k], r.anchors[j]);
    }
  }

  lemma AuthoredIs(r: RecordDefinition, a: PageAnchor)
    requires GoodGraph(r) && a in r.anchors
    ensures Authored(r.anchors, a.id) == Some(a)
  {
    OneAnchorPerIdAndLabel(r, a, Authored(r.anchors, a.id).value);
  }

  // Both pages of a twin exist, in the two documents the disclosure pairs, and the public one is public.
  lemma TwinsExist(r: RecordDefinition, d: SealedDisclosure, m: TwinAnchor)
    requires WellLinked(r) && d in r.disclosures && m in d.anchorMappings
    ensures AnchorIn(r.anchors, m.sealedAnchorId, d.sealedDocumentId) && IsSealed(r.documents, d.sealedDocumentId)
    ensures AnchorIn(r.anchors, m.publicAnchorId, d.publicDocumentId) && IsPublic(r.documents, d.publicDocumentId)
  {
    hide Bounded;
    var i :| 0 <= i < |r.disclosures| && r.disclosures[i] == d;
    var k :| 0 <= k < |d.anchorMappings| && d.anchorMappings[k] == m;
    assert GoodRule(r, r.disclosures[..i], d) && GoodMappings(r, r.disclosures[..i], d);
    assert GoodMapping(r, r.disclosures[..i], d, k);
  }

  // Every stable copy is there, in every access state.
  lemma {:induction false} StableCopyExists(r: RecordDefinition, granted: set<Text>, d: SealedDisclosure, m: TwinAnchor)
    requires WellLinked(r) && d in r.disclosures && m in d.anchorMappings
    ensures StableCopy(r, granted, d, m).Some?
    ensures var side, page := Authored(r.anchors, TwinSide(granted, d, m)), StableCopy(r, granted, d, m).value;
            && side.Some? && page == side.value.(id := m.stableAnchorId)
            && page.documentId == if d.sealedDocumentId in granted then d.sealedDocumentId else d.publicDocumentId
  {
    hide GoodDisclosing, GoodLinks, GoodDocket, GoodDescriptors, ParentGraph.HasCycle, GoodDocument, GoodAnchor,
         Referenced;
    TwinsExist(r, d, m);
    var sealedSide :| sealedSide in r.anchors && sealedSide.id == m.sealedAnchorId
        && sealedSide.documentId == d.sealedDocumentId;
    var publicSide :| publicSide in r.anchors && publicSide.id == m.publicAnchorId
        && publicSide.documentId == d.publicDocumentId;
    AuthoredIs(r, sealedSide);
    AuthoredIs(r, publicSide);
  }

  // A stable identifier names one twin, and nothing that was authored.
  lemma {:induction false} StableIdIsUnique(r: RecordDefinition, d: SealedDisclosure, m: TwinAnchor,
                                            d': SealedDisclosure, m': TwinAnchor)
    requires WellLinked(r) && d in r.disclosures && m in d.anchorMappings
    requires d' in r.disclosures && m' in d'.anchorMappings
    ensures m.stableAnchorId == m'.stableAnchorId ==> d == d' && m == m'
    ensures m.stableAnchorId !in AnchorIds(r.anchors) + DocumentIds(r.documents) + EntryIds(r.docket)
  {
    hide Bounded, GoodGraph, GoodRule;
    var i :| 0 <= i < |r.disclosures| && r.disclosures[i] == d;
    var i' :| 0 <= i' < |r.disclosures| && r.disclosures[i'] == d';
    var k :| 0 <= k < |d.anchorMappings| && d.anchorMappings[k] == m;
    var k' :| 0 <= k' < |d'.anchorMappings| && d'.anchorMappings[k'] == m';
    assert GoodMapping(r, r.disclosures[..i], d, k);
    assert GoodMapping(r, r.disclosures[..i'], d', k');
    if i < i' {
      assert r.disclosures[..i'][i] == d && m.stableAnchorId in StableOf(d.anchorMappings);
    } else if i' < i {
      assert r.disclosures[..i][i'] == d' && m'.stableAnchorId in StableOf(d'.anchorMappings);
    } else if k < k' {
      assert d'.anchorMappings[..k'][k] == m;
    } else if k' < k {
      assert d.anchorMappings[..k][k'] == m';
    }
  }

  // The order of the checks shows: a stable identifier may repeat the identifier of its own disclosure or of an
  // earlier one, but never that of a later one.
  lemma {:induction false} StableIdRepeatsNoLaterDisclosure(r: RecordDefinition, i: nat, j: nat, m: TwinAnchor)
    requires WellLinked(r) && i < |r.disclosures| && j < |r.disclosures| && m in r.disclosures[i].anchorMappings
    ensures m.stableAnchorId == r.disclosures[j].disclosureId ==> j <= i
  {
    hide Bounded, GoodGraph, GoodMappings;
    if i < j {
      assert GoodIdentity(r, r.disclosures[..j], r.disclosures[j]);
      assert r.disclosures[..j][i] == r.disclosures[i] && m.stableAnchorId in StableOf(r.disclosures[i].anchorMappings);
    }
  }

  // Two visible anchors with one identifier are one anchor.
  lemma {:induction false} VisibleAnchorIdsAreUnique(r: RecordDefinition, granted: set<Text>, a: PageAnchor,
                                                     b: PageAnchor)
    requires WellLinked(r) && a in VisibleAnchors(r, granted) && b in VisibleAnchors(r, granted)
    ensures a.id == b.id ==> a == b
  {
    hide GoodGraph, GoodDisclosing, VisibleAnchors, Authored, VisibleIds, DocumentIds, EntryIds;
    AmongVisibleAnchors(r, granted, a);
    AmongVisibleAnchors(r, granted, b);
    if a in r.anchors && b in r.anchors {
      OneAnchorPerIdAndLabel(r, a, b);
    } else if CopyAmong(r, granted, r.disclosures, a) {
      var d, m :| d in r.disclosures && m in d.anchorMappings && StableCopy(r, granted, d, m) == Some(a);
      CopyApart(r, granted, d, m, a, b);
    } else {
      var d, m :| d in r.disclosures && m in d.anchorMappings && StableCopy(r, granted, d, m) == Some(b);
      CopyApart(r, granted, d, m, b, a);
    }
  }

  lemma CopyApart(r: RecordDefinition, granted: set<Text>, d: SealedDisclosure, m: TwinAnchor, copy: PageAnchor,
                  b: PageAnchor)
    requires WellLinked(r) && d in r.disclosures && m in d.anchorMappings
    requires StableCopy(r, granted, d, m) == Some(copy) && b in VisibleAnchors(r, granted)
    ensures copy.id == b.id ==> copy == b
  {
    hide GoodGraph, GoodDisclosing, VisibleAnchors, Authored, VisibleIds, DocumentIds, EntryIds;
    AmongVisibleAnchors(r, granted, b);
    StableIdIsUnique(r, d, m, d, m);
    if b !in r.anchors {
      var d', m' :| d' in r.disclosures && m' in d'.anchorMappings && StableCopy(r, granted, d', m') == Some(b);
      StableIdIsUnique(r, d, m, d', m');
    } else {
      assert b.id in AnchorIds(r.anchors);
    }
  }

  // The authored anchor a visible one shows: the same document, page and label.
  ghost predicate Shows(r: RecordDefinition, a: PageAnchor, origin: PageAnchor) {
    origin in r.anchors && a == origin.(id := a.id)
  }

  lemma VisibleAnchorShows(r: RecordDefinition, granted: set<Text>, a: PageAnchor) returns (origin: PageAnchor)
    requires a in VisibleAnchors(r, granted)
    ensures Shows(r, a, origin) && origin in PhysicalAnchors(r, granted)
  {
    AmongVisibleAnchors(r, granted, a);
    if a in r.anchors && a.documentId in VisibleIds(r, granted) {
      origin := a;
    } else {
      var d, m :| d in r.disclosures && m in d.anchorMappings && StableCopy(r, granted, d, m) == Some(a);
      origin := Authored(r.anchors, TwinSide(granted, d, m)).value;
    }
  }

  // Whichever visible anchor carries a label, it is the same page of the same document.
  lemma {:induction false} LabelNamesOnePage(r: RecordDefinition, granted: set<Text>, a: PageAnchor, b: PageAnchor)
    requires WellLinked(r) && a in VisibleAnchors(r, granted) && b in VisibleAnchors(r, granted)
    requires a.citationLabel != [] && a.citationLabel == b.citationLabel
    ensures a.documentId == b.documentId && a.pageIndex == b.pageIndex
  {
    hide GoodGraph, GoodDisclosing, VisibleAnchors, PhysicalAnchors;
    var x := VisibleAnchorShows(r, granted, a);
    var y := VisibleAnchorShows(r, granted, b);
    OneAnchorPerIdAndLabel(r, x, y);
  }

  // ---- Parents in the visible docket ----

  ghost predicate ClosedUnderParents(docket: seq<DocketEntry>) {
    forall e :: e in docket && e.parentEntryId != [] ==> exists p :: p in docket && p.id == e.parentEntryId
  }

  // A granted document whose entry hangs below an entry whose own document is not granted.
  ghost predicate StrandedGrant(r: RecordDefinition, granted: set<Text>, e: DocketEntry, p: DocketEntry) {
    && e in r.docket && p in r.docket && e.parentEntryId == p.id && e.parentEntryId != []
    && e.documentId in granted * SealedIds(r.documents)
    && p.documentId in SealedIds(r.documents) - granted
  }

  lemma SealedIsNotVisible(r: RecordDefinition, granted: set<Text>, id: Text)
    requires GoodDocuments(r.documents) && id in DocumentIds(r.documents)
    ensures id in VisibleIds(r, granted) <==> r.policy.None? || id !in SealedIds(r.documents) || id in granted
  {
    var d :| d in r.documents && d.id == id;
    forall c | c in r.documents && c.id == id ensures c == d {
      OneDocumentPerId(r, c, d);
    }
  }

  lemma ParentIn(r: RecordDefinition, e: DocketEntry) returns (p: DocketEntry)
    requires GoodGraph(r) && e in r.docket && e.parentEntryId != []
    ensures p in r.docket && p.id == e.parentEntryId
    ensures MayBeParent(e, p, r.policy.Some?, SealedIds(r.documents))
    ensures e.documentId in DocumentIds(r.documents) && p.documentId in DocumentIds(r.documents)
  {
    hide GoodEntry, GoodDocuments, GoodDescriptors, GoodAnchors, ParentGraph.HasCycle;
    assert GoodLink(r.docket, e, r.policy.Some?, SealedIds(r.documents));
    p :| p in r.docket && p.id == e.parentEntryId && MayBeParent(e, p, r.policy.Some?, SealedIds(r.documents));
  }

  // The docket of every entry, by the entry's identifier.
  ghost function DocketsOf(docket: seq<DocketEntry>): (of: map<Text, Text>)
    requires forall e, f :: e in docket && f in docket && e.id == f.id ==> e == f
    ensures forall e :: e in docket ==> e.id in of && of[e.id] == e.docketId
    ensures forall id :: id in of ==> id in EntryIds(docket)
  {
    map e <- docket :: e.id := e.docketId
  }

  lemma {:induction false} LinksAreParents(docket: seq<DocketEntry>)
    requires forall e, f :: e in docket && f in docket && e.id == f.id ==> e == f
    ensures var links := ParentLinks(docket);
            && (forall e :: e in docket && e.parentEntryId != [] ==> e.id in links && links[e.id] == e.parentEntryId)
            && (forall id :: id in links ==>
                  exists e :: e in docket && e.id == id && e.parentEntryId != [] && links[id] == e.parentEntryId)
    decreases |docket|
  {
    if docket != [] {
      var front, last := docket[..|docket| - 1], docket[|docket| - 1];
      assert docket == front + [last];
      LinksAreParents(front);
      var links := ParentLinks(docket);
      forall id | id in links
        ensures exists e :: e in docket && e.id == id && e.parentEntryId != [] && links[id] == e.parentEntryId
      {
        if id == last.id && last.parentEntryId != [] {
          assert last in docket;
        } else {
          var e :| e in front && e.id == id && e.parentEntryId != [] && links[id] == e.parentEntryId;
          assert e in docket;
        }
      }
    }
  }

  lemma LinkedEntry(docket: seq<DocketEntry>, id: Text) returns (e: DocketEntry)
    requires forall e, f :: e in docket && f in docket && e.id == f.id ==> e == f
    requires id in ParentLinks(docket)
    ensures e in docket && e.id == id && e.parentEntryId != [] && ParentLinks(docket)[id] == e.parentEntryId
  {
    hide ParentLinks;
    LinksAreParents(docket);
    e :| e in docket && e.id == id && e.parentEntryId != [] && ParentLinks(docket)[id] == e.parentEntryId;
  }

  lemma EntriesAreOnePerId(r: RecordDefinition)
    requires GoodGraph(r)
    ensures forall e, f :: e in r.docket && f in r.docket && e.id == f.id ==> e == f
    ensures !ParentGraph.HasCycle(ParentLinks(r.docket))
  {
    hide GoodEntry, GoodDocuments, GoodDescriptors, GoodAnchors, GoodLinks, ParentGraph.HasCycle;
  }

  lemma ParentSharesTheDocket(r: RecordDefinition, e: DocketEntry)
    requires GoodGraph(r) && e in r.docket && e.parentEntryId != []
    requires forall e, f :: e in r.docket && f in r.docket && e.id == f.id ==> e == f
    ensures var of := DocketsOf(r.docket);
            e.id in of && e.parentEntryId in of && of[e.id] == of[e.parentEntryId]
  {
    hide GoodGraph, GoodLinks;
    var p := ParentIn(r, e);
  }

  lemma ParentsShareTheDocket(r: RecordDefinition)
    requires GoodGraph(r)
    requires forall e, f :: e in r.docket && f in r.docket && e.id == f.id ==> e == f
    ensures var links, of := ParentLinks(r.docket), DocketsOf(r.docket);
            forall id :: id in links ==> ParentGraph.StaysInDocket(links, of, id)
  {
    hide GoodGraph, ParentLinks, DocketsOf;
    var links, of := ParentLinks(r.docket), DocketsOf(r.docket);
    forall id | id in links ensures ParentGraph.StaysInDocket(links, of, id) {
      var e := LinkedEntry(r.docket, id);
      ParentSharesTheDocket(r, e);
    }
  }

  // The chain from `id` ends, at an entry of that docket without a parent.
  ghost predicate EndsInDocket(docket: seq<DocketEntry>, id: Text, docketId: Text) {
    exists root, n: nat :: root in docket && root.parentEntryId == [] && root.docketId == docketId
                           && ParentGraph.EndsAt(ParentLinks(docket), id, root.id, n)
  }

  // The chain from `id` never leaves that docket.
  ghost predicate StaysIn(docket: seq<DocketEntry>, id: Text, docketId: Text) {
    forall f, n: nat :: f in docket && ParentGraph.Follows(ParentLinks(docket), id, f.id, n) ==> f.docketId == docketId
  }

  lemma AcyclicChainEndsInItsDocket(docket: seq<DocketEntry>, e: DocketEntry)
    requires forall e, f :: e in docket && f in docket && e.id == f.id ==> e == f
    requires !ParentGraph.HasCycle(ParentLinks(docket))
    requires forall id :: id in ParentLinks(docket) ==>
               ParentGraph.StaysInDocket(ParentLinks(docket), DocketsOf(docket), id)
    requires e in docket
    ensures EndsInDocket(docket, e.id, e.docketId)
  {
    hide ParentGraph.HasCycle, ParentGraph.StaysInDocket, ParentGraph.Follows, ParentLinks;
    var links, of := ParentLinks(docket), DocketsOf(docket);
    ParentGraph.AcyclicExactlyWhenRooted(links);
    assert ParentGraph.Rooted(links, e.id);
    var id, n: nat :| ParentGraph.EndsAt(links, e.id, id, n);
    ParentGraph.ChainStaysInDocket(links, of, e.id, id, n);
    var root :| root in docket && root.id == id;
    assert root.parentEntryId == [] by {
      LinksAreParents(docket);
    }
  }

  lemma ChainStaysIn(docket: seq<DocketEntry>, e: DocketEntry)
    requires forall e, f :: e in docket && f in docket && e.id == f.id ==> e == f
    requires forall id :: id in ParentLinks(docket) ==>
               ParentGraph.StaysInDocket(ParentLinks(docket), DocketsOf(docket), id)
    requires e in docket
    ensures StaysIn(docket, e.id, e.docketId)
  {
    hide ParentGraph.StaysInDocket, ParentGraph.Follows, ParentLinks;
    var links, of := ParentLinks(docket), DocketsOf(docket);
    forall f, m: nat | f in docket && ParentGraph.Follows(links, e.id, f.id, m) ensures f.docketId == e.docketId {
      ParentGraph.ChainStaysInDocket(links, of, e.id, f.id, m);
    }
  }

  // In every accepted record the chain of every entry ends, at an entry without a parent in the same
  // docket, and never leaves that docket on the way.
  lemma {:induction false} EveryChainEndsInItsDocket(r: RecordDefinition, e: DocketEntry)
    requires GoodGraph(r) && e in r.docket
    ensures EndsInDocket(r.docket, e.id, e.docketId) && StaysIn(r.docket, e.id, e.docketId)
  {
    hide GoodGraph, ParentGraph.HasCycle, ParentGraph.StaysInDocket, ParentLinks, EndsInDocket, StaysIn;
    EntriesAreOnePerId(r);
    ParentsShareTheDocket(r);
    AcyclicChainEndsInItsDocket(r.docket, e);
    ChainStaysIn(r.docket, e);
  }

  // The visible docket contains the parent of every entry exactly when no grant is stranded; without grants it does.
  lemma {:induction false} DocketClosedExactlyWhen(r: RecordDefinition, granted: set<Text>)
    requires WellLinked(r)
    ensures ClosedUnderParents(VisibleDocket(r, granted)) <==>
            r.policy.None? || !exists e, p :: StrandedGrant(r, granted, e, p)
  {
    hide GoodDisclosing, GoodGraph, VisibleIds, GoodDocuments, DocumentIds, SealedIds;
    var rows := VisibleDocket(r, granted);
    forall e | e in rows && e.parentEntryId != []
      ensures (exists p :: p in rows && p.id == e.parentEntryId) <==>
              r.policy.None? || !exists p :: StrandedGrant(r, granted, e, p)
    {
      var p := ParentIn(r, e);
      assert GoodDocuments(r.documents) by { GraphHasGoodDocuments(r); }
      SealedIsNotVisible(r, granted, p.documentId);
      SealedIsNotVisible(r, granted, e.documentId);
      forall q | q in r.docket && q.id == e.parentEntryId ensures q == p {
        OneEntryPerId(r, q, p);
      }
      assert p in rows <==> p.documentId in VisibleIds(r, granted);
      if r.policy.Some? && p !in rows {
        assert StrandedGrant(r, granted, e, p);
      }
    }
    if r.policy.Some? {
      forall e, p | StrandedGrant(r, granted, e, p) ensures e in rows {
        var q := ParentIn(r, e);
        assert GoodDocuments(r.documents) by { GraphHasGoodDocuments(r); }
        SealedIsNotVisible(r, granted, e.documentId);
      }
    }
  }

  lemma GraphHasGoodDocuments(r: RecordDefinition)
    requires GoodGraph(r)
    ensures GoodDocuments(r.documents)
  {
  }
}

/** A small record that is accepted: one public and two sealed documents, a disclosure without a
    counterpart, and after it one with two twins. One sealed entry is a component of the other. */
module RecordExample {
  import opened Utf16Text
  import opened RecordModel
  import opened RecordRules
  import opened RecordProjection
  import opened RecordWorkspaces
  import ParentGraph

  const P: Text := [0x70]
  const S: Text := [0x73]
  const T: Text := [0x74]
  const FIRST: Text := [0x31]
  const SECOND: Text := [0x32]

  const PUBLIC := Document(P, P, P, false, 0, false)
  const SEALED := Document(S, S, [], true, 0, true)
  const OTHER_SEALED := Document(T, T, [], true, 0, true)
  const FILED := DocketEntry([0x65], Some(0), P, P, P, P, [], [], [], [], [], [])
  const FILED_SEALED := DocketEntry([0x66], Some(0), P, P, P, S, [], [], [], [], [], [])
  const FILED_OTHER := DocketEntry([0x67], Some(0), P, P, P, T, [], [], [], [], [0x66],
                                   Ascii("component"))
  const PAGE := PageAnchor([0x61], P, 0, [])
  const SEALED_PAGE := PageAnchor([0x62], S, 0, [])
  const NEXT_PAGE := PageAnchor([0x63], P, 1, [])
  const NEXT_SEALED_PAGE := PageAnchor([0x64], S, 1, [])
  // The stable identifiers are those of the disclosure before, and of the disclosure itself.
  const EARLIER_TWIN := TwinAnchor(FIRST, [0x62], [0x61])
  const OWN_TWIN := TwinAnchor(SECOND, [0x64], [0x63])
  const UNPAIRED := SealedDisclosure(FIRST, T, [], [], [], P, [], [])
  const DISCLOSURE := SealedDisclosure(SECOND, S, P, [], [], P, [], [EARLIER_TWIN, OWN_TWIN])
  const EXAMPLE := RecordDefinition([PUBLIC, SEALED, OTHER_SEALED], [FILED, FILED_SEALED, FILED_OTHER],
    [PAGE, SEALED_PAGE, NEXT_PAGE, NEXT_SEALED_PAGE], [],
    Some(DisclosurePolicy(P, P, Ascii("public_counterparts_only"), Ascii("public_and_authorized_sealed"),
                          Ascii("session_event_grant_required"))),
    [UNPAIRED, DISCLOSURE])

  lemma OneUnitIsBounded(u: Unit, maximum: nat, allowEmpty: bool)
    requires 0 < u < 0xD800 && maximum >= 1
    ensures Bounded([u], maximum, allowEmpty)
  {
    assert [u][1..] == [];
    assert Decode([u][1..]) == Some([]);
  }

  lemma EmptyIsBounded(maximum: nat)
    ensures Bounded([], maximum, true)
  {
  }

  lemma TextsAreBounded(maximum: nat)
    requires maximum >= 1
    ensures Bounded([], maximum, true)
    ensures forall u: Unit, allowEmpty :: 0 < u < 0xD800 ==> Bounded([u], maximum, allowEmpty)
  {
    hide Bounded;
    EmptyIsBounded(maximum);
    forall u: Unit, allowEmpty | 0 < u < 0xD800 ensures Bounded([u], maximum, allowEmpty) {
      OneUnitIsBounded(u, maximum, allowEmpty);
    }
  }

  lemma {:induction false} PlainUnitsAreScalars(text: Text)
    requires forall i :: 0 <= i < |text| ==> text[i] < 0xD800
    ensures ScalarCount(text) == Some(|text|)
    decreases |text|
  {
    if text != [] {
      PlainUnitsAreScalars(text[1..]);
    }
  }

  lemma ComponentIsBounded()
    ensures Bounded(Ascii("component"), 16, true) && Ascii("component") != []
  {
    var name, text := "component", Ascii("component");
    assert forall i :: 0 <= i < |name| ==> 'a' <= name[i] <= 'z';
    assert forall i :: 0 <= i < |text| ==> text[i] == name[i] as int;
    PlainUnitsAreScalars(text);
  }

  lemma ExampleRows()
    ensures GoodDocument(PUBLIC) && GoodDocument(SEALED) && GoodDocument(OTHER_SEALED)
    ensures GoodEntry(FILED) && GoodEntry(FILED_SEALED) && GoodEntry(FILED_OTHER)
  {
    hide Bounded;
    TextsAreBounded(160);
    TextsAreBounded(512);
    TextsAreBounded(240);
    TextsAreBounded(4096);
    TextsAreBounded(120);
    TextsAreBounded(16);
    ComponentIsBounded();
    hide Ascii;
  }

  lemma ExampleIds()
    ensures DocumentIds(EXAMPLE.documents) == {P, S, T} == FiledDocuments(EXAMPLE.docket)
    ensures EntryIds(EXAMPLE.docket) == {[0x65], [0x66], [0x67]}
    ensures AnchorIds(EXAMPLE.anchors) == {[0x61], [0x62], [0x63], [0x64]}
  {
    ExampleMembers();
    hide Ascii;
  }

  lemma ExampleMembers()
    ensures PUBLIC in EXAMPLE.documents && SEALED in EXAMPLE.documents && OTHER_SEALED in EXAMPLE.documents
    ensures FILED in EXAMPLE.docket && FILED_SEALED in EXAMPLE.docket && FILED_OTHER in EXAMPLE.docket
    ensures PAGE in EXAMPLE.anchors && SEALED_PAGE in EXAMPLE.anchors
    ensures NEXT_PAGE in EXAMPLE.anchors && NEXT_SEALED_PAGE in EXAMPLE.anchors
    ensures UNPAIRED in EXAMPLE.disclosures && DISCLOSURE in EXAMPLE.disclosures
  {
    hide Ascii;
    assert EXAMPLE.documents[0] == PUBLIC && EXAMPLE.documents[1] == SEALED && EXAMPLE.documents[2] == OTHER_SEALED;
    assert EXAMPLE.docket[0] == FILED && EXAMPLE.docket[1] == FILED_SEALED && EXAMPLE.docket[2] == FILED_OTHER;
    assert EXAMPLE.anchors[0] == PAGE && EXAMPLE.anchors[1] == SEALED_PAGE;
    assert EXAMPLE.anchors[2] == NEXT_PAGE && EXAMPLE.anchors[3] == NEXT_SEALED_PAGE;
    assert EXAMPLE.disclosures[0] == UNPAIRED && EXAMPLE.disclosures[1] == DISCLOSURE;
  }

  lemma ExampleTexts()
    ensures forall id :: id in {P, S, T, FIRST, SECOND, [0x61], [0x62], [0x63], [0x64]} ==> Bounded(id, 160, false)
    ensures Bounded(P, 160, true) && Bounded([], 160, true) && Bounded([], 120, true)
  {
    hide Bounded;
    TextsAreBounded(160);
    TextsAreBounded(120);
  }

  lemma ExampleAnchors()
    ensures GoodAnchors(EXAMPLE.anchors, EXAMPLE.documents, EntryIds(EXAMPLE.docket))
  {
    hide Ascii, Bounded, DocumentIds, EntryIds, PageExists;
    ExampleTexts();
    ExampleIds();
    PagesExist();
    assert GoodAnchor(PAGE, EXAMPLE.documents, EntryIds(EXAMPLE.docket));
    assert GoodAnchor(SEALED_PAGE, EXAMPLE.documents, EntryIds(EXAMPLE.docket));
    assert GoodAnchor(NEXT_PAGE, EXAMPLE.documents, EntryIds(EXAMPLE.docket));
    assert GoodAnchor(NEXT_SEALED_PAGE, EXAMPLE.documents, EntryIds(EXAMPLE.docket));
    hide GoodAnchor;
  }

  lemma PagesExist()
    ensures PageExists(EXAMPLE.documents, PAGE) && PageExists(EXAMPLE.documents, SEALED_PAGE)
    ensures PageExists(EXAMPLE.documents, NEXT_PAGE) && PageExists(EXAMPLE.documents, NEXT_SEALED_PAGE)
  {
    hide Ascii;
    ExampleMembers();
  }

  lemma ExampleGraph()
    ensures GoodGraph(EXAMPLE)
  {
    hide Ascii, Bounded, ParentGraph.HasCycle, GoodAnchors, DocumentIds, EntryIds, FiledDocuments, GoodEntry,
         GoodDocument, GoodLinks, SealedIds;
    ExampleRows();
    ExampleIds();
    ExampleAnchors();
    ExampleLinks();
    OneLink();
  }

  lemma ExampleLinks()
    ensures GoodLinks(EXAMPLE.docket, true, SealedIds(EXAMPLE.documents))
    ensures SealedIds(EXAMPLE.documents) == {S, T}
  {
    ExampleMembers();
    ComponentIsBounded();
    hide Ascii, Bounded;
    assert SealedIds(EXAMPLE.documents) == {S, T};
    assert MayBeParent(FILED_OTHER, FILED_SEALED, true, {S, T});
  }

  // The one chain of two links ends.
  lemma OneLink()
    ensures !ParentGraph.HasCycle(ParentLinks(EXAMPLE.docket))
  {
    hide Ascii;
    assert EXAMPLE.docket[..2] == [FILED, FILED_SEALED];
    assert [FILED, FILED_SEALED][..1] == [FILED] && [FILED][..0] == [];
    assert ParentLinks([FILED]) == map[];
    var links := map[[0x67] := [0x66]];
    assert ParentLinks(EXAMPLE.docket) == links;
    forall x, n: nat | n > 0 ensures !ParentGraph.Follows(links, x, x, n) {
      if x in links {
        assert [0x66][0] != [0x67][0];
        assert ParentGraph.Ancestor(links, [0x66], n - 1) == if n == 1 then Some([0x66]) else None;
      }
    }
  }

  lemma UnpairedRule()
    ensures GoodRule(EXAMPLE, [], UNPAIRED) && GoodMappings(EXAMPLE, [], UNPAIRED)
  {
    hide Ascii, Bounded, DocumentIds, EntryIds, AnchorIds, IsSealed, IsPublic, SameDocket;
    ExampleTexts();
    ExampleIds();
    ExampleSides();
  }

  lemma ExampleRule()
    ensures GoodRule(EXAMPLE, [UNPAIRED], DISCLOSURE)
  {
    hide Ascii, Bounded, DocumentIds, EntryIds, AnchorIds, IsSealed, IsPublic, SameDocket;
    ExampleTexts();
    ExampleIds();
    ExampleSides();
    UnpairedSets();
    hide DisclosureIds, StableIds, Permitted, Counterparts;
  }

  // What the first disclosure uses up.
  lemma UnpairedSets()
    ensures DisclosureIds([UNPAIRED]) == {FIRST} && Permitted([UNPAIRED]) == {T}
    ensures StableIds([UNPAIRED]) == {} && MappedSealed([UNPAIRED]) == {} && MappedPublic([UNPAIRED]) == {}
    ensures P !in Counterparts([UNPAIRED])
  {
    assert UNPAIRED in [UNPAIRED];
  }

  lemma ExampleSides()
    ensures IsSealed(EXAMPLE.documents, S) && IsSealed(EXAMPLE.documents, T) && IsPublic(EXAMPLE.documents, P)
    ensures SameDocket(EXAMPLE.docket, P, S)
  {
    hide Ascii;
    ExampleMembers();
  }

  lemma ExampleMappings()
    ensures GoodMappings(EXAMPLE, [UNPAIRED], DISCLOSURE)
  {
    hide Ascii, Bounded, DocumentIds, EntryIds, AnchorIds, AnchorIn;
    ExampleTexts();
    ExampleIds();
    ExamplePages();
    UnpairedSets();
    hide StableIds, MappedSealed, MappedPublic;
    assert DISCLOSURE.anchorMappings[..0] == [] && DISCLOSURE.anchorMappings[..1] == [EARLIER_TWIN];
    assert GoodMapping(EXAMPLE, [UNPAIRED], DISCLOSURE, 0) && GoodMapping(EXAMPLE, [UNPAIRED], DISCLOSURE, 1);
  }

  lemma ExamplePages()
    ensures AnchorIn(EXAMPLE.anchors, [0x62], S) && AnchorIn(EXAMPLE.anchors, [0x61], P)
    ensures AnchorIn(EXAMPLE.anchors, [0x64], S) && AnchorIn(EXAMPLE.anchors, [0x63], P)
  {
    hide Ascii;
    ExampleMembers();
  }

  lemma ExampleDisclosure()
    ensures GoodDisclosing(EXAMPLE)
  {
    hide Ascii;
    ExampleTexts();
    ExampleMembers();
    UnpairedRule();
    ExampleRule();
    ExampleMappings();
    hide Bounded, GoodRule, GoodMappings;
    assert EXAMPLE.disclosures[..0] == [] && EXAMPLE.disclosures[..1] == [UNPAIRED];
    assert UNPAIRED.sealedDocumentId in Permitted(EXAMPLE.disclosures);
    assert DISCLOSURE.sealedDocumentId in Permitted(EXAMPLE.disclosures);
  }

  // The record is accepted, although its stable identifiers repeat those of disclosures: one that of
  // an earlier disclosure, and one that of its own.
  lemma {:induction false} ExampleIsAcceptable()
    ensures Acceptable(EXAMPLE, {P})
    ensures EXAMPLE.disclosures == [UNPAIRED, DISCLOSURE] && DISCLOSURE.anchorMappings == [EARLIER_TWIN, OWN_TWIN]
    ensures EARLIER_TWIN.stableAnchorId == UNPAIRED.disclosureId && OWN_TWIN.stableAnchorId == DISCLOSURE.disclosureId
  {
    ExampleGraph();
    ExampleDisclosure();
    hide GoodGraph, GoodDisclosing;
  }

  // ---- A partial grant ----

  // The component is granted, the entry it belongs to is not.
  lemma GrantIsStranded()
    ensures {T} <= Permitted(EXAMPLE.disclosures)
    ensures StrandedGrant(EXAMPLE, {T}, FILED_OTHER, FILED_SEALED)
  {
    ExampleMembers();
    ExampleLinks();
    hide Ascii, SealedIds;
    assert UNPAIRED.sealedDocumentId in Permitted(EXAMPLE.disclosures);
  }

  lemma {:induction false} DocketLosesAParent()
    ensures !ClosedUnderParents(VisibleDocket(EXAMPLE, {T}))
  {
    ExampleIsAcceptable();
    GrantIsStranded();
    hide GoodGraph, GoodDisclosing, VisibleDocket, ClosedUnderParents, StrandedGrant, Ascii;
    DocketClosedExactlyWhen(EXAMPLE, {T});
  }

  function AccessTo(granted: seq<Text>): AccessProjection {
    AccessProjection(P, P, P, 1, seq(64, i => 'a' as int), granted)
  }

  lemma AccessToTheComponentApplies()
    ensures Applies(EXAMPLE, None, AccessTo([T])) && Grants(AccessTo([T])) == {T}
  {
    GrantIsStranded();
    assert AccessTo([T]).headDigest[0] != ZeroHead()[0];
    assert AccessTo([T]).authorizedDocumentIds[0] == T;
    hide Ascii;
  }

  // A workspace that holds the record and applies that access shows an entry without its parent.
  method GrantTheComponent() returns (workspace: RecordWorkspace)
    ensures fresh(workspace) && workspace.Valid() && workspace.full == EXAMPLE && workspace.granted == {T}
    ensures !ClosedUnderParents(workspace.rows)
  {
    hide Acceptable, Applies, GoodGraph, GoodDisclosing, VisibleDocket, ClosedUnderParents, Ascii;
    ExampleIsAcceptable();
    AccessToTheComponentApplies();
    DocketLosesAParent();
    workspace := new RecordWorkspace();
    var _ := workspace.SetRecord(EXAMPLE, {P});
    var _ := workspace.ApplyAccess(AccessTo([T]));
  }
}

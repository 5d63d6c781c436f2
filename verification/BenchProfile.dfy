/** Judge profiles and their JSON tree: what is written, and what is read back. */
module BenchProfiles {
  import opened Utf16Text

  const MAXIMUM_ID := 160
  const MAXIMUM_DISPLAY_NAME := 128
  const MAXIMUM_JURISDICTIONS := 64
  const MAXIMUM_FOCUS := 32
  const MAXIMUM_PHRASES := 8
  const MAXIMUM_PHRASE := 128

  // ---- Profiles ----

  datatype ProfileClass = FictionalComposite | AnotherClass
  datatype CourtRole = District | Appellate
  datatype Register = Plain | Formal | Technical
  datatype Cadence = Clipped | Measured | Expansive
  datatype Framing = Direct | Socratic | Narrative
  datatype Address = Counsel | Advocate

  datatype IssueFocus = IssueFocus(topicId: Text, weight: real)

  datatype Interaction = Interaction(directness: real, formality: real, questionLength: real, interruption: real,
                                     followUp: real, hypothetical: real, concession: real, recordPin: real,
                                     timeStrictness: real, focus: seq<IssueFocus>)

  datatype Voice = Voice(register: Register, cadence: Cadence, framing: Framing, address: Address, verbosity: real,
                         complexity: real, questions: seq<Text>, interruptions: seq<Text>, clarifications: seq<Text>)

  datatype JudgeProfile = JudgeProfile(id: Text, displayName: Text, class_: ProfileClass, roles: seq<CourtRole>,
                                       jurisdictions: seq<Text>, interaction: Interaction, voice: Voice)

  // ---- JSON trees ----

  // The names the schema knows, and all others.
  datatype Name =
    | SchemaVersion | ResourceKind | ResourceId | DisplayName | ClassName | Compatibility | InteractionName | VoiceName
    | CourtRoles | JurisdictionIds
    | Directness | Formality | QuestionLength | InterruptionFrequency | FollowUpDepth | HypotheticalFrequency
    | ConcessionRecall | RecordPinDemand | TimeStrictness | IssueFocusName | TopicId | Weight
    | RegisterName | CadenceName | QuestionFraming | AddressConvention | Verbosity | SentenceComplexity
    | QuestionPhrases | InterruptionPhrases | ClarificationPhrases
    | Other(text: Text)

  datatype Json = JNull | JBool(b: bool) | JNumber(value: real) | JText(text: Text) | JList(items: seq<Json>)
                | JObject(fields: map<Name, Json>)

  // Predicates on text that rest on the regular-expression engine and on character classes.
  datatype Classes = Classes(namespaced: Text -> bool, blank: Text -> bool, trimmed: Text -> bool,
                             printable: Unit -> bool, utf8Length: Text -> nat)

  // ---- What a valid profile is ----

  predicate Unit01(x: real) {
    0.0 <= x <= 1.0
  }

  predicate NamespacedId(k: Classes, t: Text) {
    3 <= |t| <= MAXIMUM_ID && 0 !in t && k.namespaced(t)
  }

  predicate Printable(k: Classes, t: Text) {
    forall i :: 0 <= i < |t| ==> k.printable(t[i]) || t[i] == 0x20
  }

  predicate DisplayNameText(k: Classes, t: Text) {
    t != [] && !k.blank(t) && |t| <= MAXIMUM_DISPLAY_NAME && 0 !in t && Printable(k, t)
  }

  predicate PhraseText(k: Classes, t: Text) {
    t != [] && |t| <= MAXIMUM_PHRASE && k.utf8Length(t) <= MAXIMUM_PHRASE && k.trimmed(t) && 0 !in t && Printable(k, t)
    && 0x7B !in t && 0x7D !in t
  }

  predicate Different<T(==)>(s: seq<T>) {
    forall i, j :: 0 <= i < j < |s| ==> s[i] != s[j]
  }

  predicate GoodRoles(roles: seq<CourtRole>) {
    1 <= |roles| <= 2 && Different(roles)
  }

  predicate GoodTexts(texts: seq<Text>, maximum: nat, ok: Text -> bool) {
    1 <= |texts| <= maximum && (forall i :: 0 <= i < |texts| ==> ok(texts[i])) && Different(texts)
  }

  predicate GoodFocus(k: Classes, focus: seq<IssueFocus>) {
    && 1 <= |focus| <= MAXIMUM_FOCUS
    && (forall i :: 0 <= i < |focus| ==> NamespacedId(k, focus[i].topicId) && Unit01(focus[i].weight))
    && (forall i, j :: 0 <= i < j < |focus| ==> focus[i].topicId != focus[j].topicId)
  }

  predicate GoodInteraction(k: Classes, x: Interaction) {
    && Unit01(x.directness) && Unit01(x.formality) && Unit01(x.questionLength) && Unit01(x.interruption)
    && Unit01(x.followUp) && Unit01(x.hypothetical) && Unit01(x.concession) && Unit01(x.recordPin)
    && Unit01(x.timeStrictness)
    && GoodFocus(k, x.focus)
  }

  predicate GoodPhrases(k: Classes, texts: seq<Text>) {
    GoodTexts(texts, MAXIMUM_PHRASES, t => PhraseText(k, t))
  }

  predicate GoodVoice(k: Classes, v: Voice) {
    Unit01(v.verbosity) && Unit01(v.complexity)
    && GoodPhrases(k, v.questions) && GoodPhrases(k, v.interruptions) && GoodPhrases(k, v.clarifications)
  }

  predicate GoodJurisdictions(k: Classes, texts: seq<Text>) {
    GoodTexts(texts, MAXIMUM_JURISDICTIONS, t => NamespacedId(k, t))
  }

  predicate Valid(k: Classes, p: JudgeProfile) {
    && p.class_ == FictionalComposite
    && NamespacedId(k, p.id) && DisplayNameText(k, p.displayName)
    && GoodRoles(p.roles) && GoodJurisdictions(k, p.jurisdictions)
    && GoodInteraction(k, p.interaction) && GoodVoice(k, p.voice)
  }

  // ---- What that means character by character and number by number ----

  // Nothing but printable characters and spaces, and none of these.
  ghost predicate Clean(k: Classes, t: Text, excluded: set<Unit>) {
    forall i :: 0 <= i < |t| ==> (k.printable(t[i]) || t[i] == ' ' as int) && t[i] != 0 && t[i] !in excluded
  }

  ghost predicate Named(k: Classes, t: Text) {
    3 <= |t| < 161 && k.namespaced(t) && forall i :: 0 <= i < |t| ==> t[i] != 0
  }

  ghost predicate Spoken(k: Classes, t: Text) {
    0 < |t| < 129 && k.utf8Length(t) < 129 && k.trimmed(t) && Clean(k, t, {'{' as int, '}' as int})
  }

  ghost predicate EachOnce(texts: seq<Text>, least: nat, most: nat) {
    least <= |texts| <= most && forall i, j :: 0 <= i < j < |texts| ==> texts[i] != texts[j]
  }

  ghost predicate Phrases(k: Classes, texts: seq<Text>) {
    EachOnce(texts, 1, 8) && forall i :: 0 <= i < |texts| ==> Spoken(k, texts[i])
  }

  function Numbers(p: JudgeProfile): set<real> {
    var x, v := p.interaction, p.voice;
    {x.directness, x.formality, x.questionLength, x.interruption, x.followUp, x.hypothetical, x.concession, x.recordPin,
     x.timeStrictness, v.verbosity, v.complexity}
  }

  // One or two different roles, 1 to 64 jurisdictions, 1 to 32 topics, 1 to 8 phrases of each kind,
  // and every number between zero and one.
  ghost predicate Declared(k: Classes, p: JudgeProfile) {
    var x, v := p.interaction, p.voice;
    && p.class_ == FictionalComposite && Named(k, p.id)
    && 0 < |p.displayName| < 129 && !k.blank(p.displayName) && Clean(k, p.displayName, {})
    && p.roles in {[District], [Appellate], [District, Appellate], [Appellate, District]}
    && EachOnce(p.jurisdictions, 1, 64) && (forall i :: 0 <= i < |p.jurisdictions| ==> Named(k, p.jurisdictions[i]))
    && (forall n :: n in Numbers(p) ==> 0.0 <= n <= 1.0)
    && 1 <= |x.focus| <= 32
    && (forall i :: 0 <= i < |x.focus| ==> Named(k, x.focus[i].topicId) && 0.0 <= x.focus[i].weight <= 1.0)
    && (forall i, j :: 0 <= i < j < |x.focus| ==> x.focus[i].topicId != x.focus[j].topicId)
    && Phrases(k, v.questions) && Phrases(k, v.interruptions) && Phrases(k, v.clarifications)
  }

  lemma TextsExactly(k: Classes, t: Text)
    ensures NamespacedId(k, t) <==> Named(k, t)
    ensures DisplayNameText(k, t) <==> 0 < |t| < 129 && !k.blank(t) && Clean(k, t, {})
    ensures PhraseText(k, t) <==> Spoken(k, t)
  {
    assert forall i :: 0 <= i < |t| ==> t[i] in t;
  }

  lemma RolesExactly(roles: seq<CourtRole>)
    ensures GoodRoles(roles) <==> roles in {[District], [Appellate], [District, Appellate], [Appellate, District]}
  {
    if |roles| == 1 {
      assert roles == [roles[0]];
      assert roles[0] == District || roles[0] == Appellate;
    } else if |roles| == 2 {
      assert roles == [roles[0], roles[1]];
      assert Different(roles) <==> roles[0] != roles[1];
      assert [District, Appellate][0] == [Appellate, District][1];
      assert [District, Appellate][1] == [Appellate, District][0];
    }
  }

  lemma PhrasesExactly(k: Classes, texts: seq<Text>)
    ensures GoodPhrases(k, texts) <==> Phrases(k, texts)
  {
    forall t ensures PhraseText(k, t) <==> Spoken(k, t) {
      TextsExactly(k, t);
    }
    hide PhraseText, Spoken;
  }

  lemma NumbersExactly(p: JudgeProfile)
    ensures var x, v := p.interaction, p.voice;
            (forall n :: n in Numbers(p) ==> 0.0 <= n <= 1.0) <==>
            && Unit01(x.directness) && Unit01(x.formality) && Unit01(x.questionLength) && Unit01(x.interruption)
            && Unit01(x.followUp) && Unit01(x.hypothetical) && Unit01(x.concession) && Unit01(x.recordPin)
            && Unit01(x.timeStrictness) && Unit01(v.verbosity) && Unit01(v.complexity)
  {
    var x, v := p.interaction, p.voice;
    if forall n :: n in Numbers(p) ==> 0.0 <= n <= 1.0 {
      assert x.directness in Numbers(p) && x.formality in Numbers(p) && x.questionLength in Numbers(p);
      assert x.interruption in Numbers(p) && x.followUp in Numbers(p) && x.hypothetical in Numbers(p);
      assert x.concession in Numbers(p) && x.recordPin in Numbers(p) && x.timeStrictness in Numbers(p);
      assert v.verbosity in Numbers(p) && v.complexity in Numbers(p);
    }
  }

  // The profiles that are valid are the declared ones.
  lemma {:induction false} ValidExactlyWhen(k: Classes, p: JudgeProfile)
    ensures Valid(k, p) <==> Declared(k, p)
  {
    forall t: Text
      ensures NamespacedId(k, t) <==> Named(k, t)
      ensures DisplayNameText(k, t) <==> 0 < |t| < 129 && !k.blank(t) && Clean(k, t, {})
    {
      TextsExactly(k, t);
    }
    RolesExactly(p.roles);
    NumbersExactly(p);
    PhrasesExactly(k, p.voice.questions);
    PhrasesExactly(k, p.voice.interruptions);
    PhrasesExactly(k, p.voice.clarifications);
    hide NamespacedId, Named, DisplayNameText, Clean, GoodRoles, GoodPhrases, Phrases, Numbers;
  }

  // ---- Validating ----

  method CheckTexts(texts: seq<Text>, maximum: nat, ok: Text -> bool) returns (good: bool)
    ensures good <==> GoodTexts(texts, maximum, ok)
  {
    if !(1 <= |texts| <= maximum) {
      return false;
    }
    var seen: set<Text> := {};
    for i := 0 to |texts|
      invariant forall j :: 0 <= j < i ==> ok(texts[j])
      invariant Different(texts[..i]) && seen == set t <- texts[..i]
    {
      assert texts[..i + 1] == texts[..i] + [texts[i]];
      if !ok(texts[i]) || texts[i] in seen {
        return false;
      }
      seen := seen + {texts[i]};
    }
    assert texts[..|texts|] == texts;
    good := true;
  }

  method CheckRoles(roles: seq<CourtRole>) returns (good: bool)
    ensures good <==> GoodRoles(roles)
  {
    if !(1 <= |roles| <= 2) {
      return false;
    }
    var seen: set<CourtRole> := {};
    for i := 0 to |roles|
      invariant Different(roles[..i]) && seen == set r <- roles[..i]
    {
      assert roles[..i + 1] == roles[..i] + [roles[i]];
      if roles[i] in seen {
        return false;
      }
      seen := seen + {roles[i]};
    }
    assert roles[..|roles|] == roles;
    good := true;
  }

  method CheckFocus(k: Classes, focus: seq<IssueFocus>) returns (good: bool)
    ensures good <==> GoodFocus(k, focus)
  {
    hide NamespacedId;
    if !(1 <= |focus| <= MAXIMUM_FOCUS) {
      return false;
    }
    var seen: set<Text> := {};
    for i := 0 to |focus|
      invariant forall j :: 0 <= j < i ==> NamespacedId(k, focus[j].topicId) && Unit01(focus[j].weight)
      invariant forall j, l :: 0 <= j < l < i ==> focus[j].topicId != focus[l].topicId
      invariant seen == set f <- focus[..i] :: f.topicId
    {
      assert focus[..i + 1] == focus[..i] + [focus[i]];
      if !NamespacedId(k, focus[i].topicId) || !Unit01(focus[i].weight) || focus[i].topicId in seen {
        forall j | 0 <= j < i ensures focus[j].topicId in (set f <- focus[..i] :: f.topicId) {
          assert focus[..i][j] == focus[j];
        }
        return false;
      }
      seen := seen + {focus[i].topicId};
    }
    good := true;
  }

  // Holds of exactly the valid profiles.
  method Validate(k: Classes, p: JudgeProfile) returns (good: bool)
    ensures good <==> Valid(k, p)
  {
    hide NamespacedId, DisplayNameText, PhraseText, GoodTexts, GoodRoles, GoodFocus;
    if p.class_ != FictionalComposite || !NamespacedId(k, p.id) || !DisplayNameText(k, p.displayName) {
      return false;
    }
    good := CheckRoles(p.roles);
    if !good {
      return;
    }
    good := CheckTexts(p.jurisdictions, MAXIMUM_JURISDICTIONS, t => NamespacedId(k, t));
    if !good {
      return;
    }
    var x, v := p.interaction, p.voice;
    if !(Unit01(x.directness) && Unit01(x.formality) && Unit01(x.questionLength) && Unit01(x.interruption)
         && Unit01(x.followUp) && Unit01(x.hypothetical) && Unit01(x.concession) && Unit01(x.recordPin)
         && Unit01(x.timeStrictness) && Unit01(v.verbosity) && Unit01(v.complexity)) {
      return false;
    }
    var questions := CheckTexts(v.questions, MAXIMUM_PHRASES, t => PhraseText(k, t));
    var interruptions := CheckTexts(v.interruptions, MAXIMUM_PHRASES, t => PhraseText(k, t));
    var clarifications := CheckTexts(v.clarifications, MAXIMUM_PHRASES, t => PhraseText(k, t));
    if !questions || !interruptions || !clarifications {
      return false;
    }
    good := CheckFocus(k, x.focus);
  }

  // ---- Writing ----

  function RoleText(r: CourtRole): Text {
    match r case District => Ascii("district") case Appellate => Ascii("appellate")
  }

  function RegisterText(r: Register): Text {
    match r case Plain => Ascii("plain") case Formal => Ascii("formal") case Technical => Ascii("technical")
  }

  function CadenceText(c: Cadence): Text {
    match c case Clipped => Ascii("clipped") case Measured => Ascii("measured") case Expansive => Ascii("expansive")
  }

  function FramingText(f: Framing): Text {
    match f case Direct => Ascii("direct") case Socratic => Ascii("socratic") case Narrative => Ascii("narrative")
  }

  function AddressText(a: Address): Text {
    match a case Counsel => Ascii("counsel") case Advocate => Ascii("advocate")
  }

  function RoleList(roles: seq<CourtRole>): seq<Json> {
    seq(|roles|, i requires 0 <= i < |roles| => JText(RoleText(roles[i])))
  }

  function TextList(texts: seq<Text>): seq<Json> {
    seq(|texts|, i requires 0 <= i < |texts| => JText(texts[i]))
  }

  function FocusTree(f: IssueFocus): Json {
    JObject(map[TopicId := JText(f.topicId), Weight := JNumber(f.weight)])
  }

  function FocusList(focus: seq<IssueFocus>): seq<Json> {
    seq(|focus|, i requires 0 <= i < |focus| => FocusTree(focus[i]))
  }

  function CompatibilityTree(roles: seq<CourtRole>, jurisdictions: seq<Text>): Json {
    JObject(map[CourtRoles := JList(RoleList(roles)), JurisdictionIds := JList(TextList(jurisdictions))])
  }

  function InteractionTree(x: Interaction): Json {
    JObject(map[ConcessionRecall := JNumber(x.concession), Directness := JNumber(x.directness),
                FollowUpDepth := JNumber(x.followUp), Formality := JNumber(x.formality),
                HypotheticalFrequency := JNumber(x.hypothetical), InterruptionFrequency := JNumber(x.interruption),
                IssueFocusName := JList(FocusList(x.focus)), QuestionLength := JNumber(x.questionLength),
                RecordPinDemand := JNumber(x.recordPin), TimeStrictness := JNumber(x.timeStrictness)])
  }

  function VoiceTree(v: Voice): Json {
    JObject(map[CadenceName := JText(CadenceText(v.cadence)), AddressConvention := JText(AddressText(v.address)),
                ClarificationPhrases := JList(TextList(v.clarifications)),
                InterruptionPhrases := JList(TextList(v.interruptions)),
                QuestionFraming := JText(FramingText(v.framing)), QuestionPhrases := JList(TextList(v.questions)),
                RegisterName := JText(RegisterText(v.register)), SentenceComplexity := JNumber(v.complexity),
                Verbosity := JNumber(v.verbosity)])
  }

  function Encode(p: JudgeProfile): Json {
    JObject(map[Compatibility := CompatibilityTree(p.roles, p.jurisdictions), DisplayName := JText(p.displayName),
                InteractionName := InteractionTree(p.interaction), ClassName := JText(Ascii("fictional_composite")),
                ResourceId := JText(p.id), ResourceKind := JText(Ascii("judge_profile")), SchemaVersion := JNumber(1.0),
                VoiceName := VoiceTree(p.voice)])
  }

  // ---- Reading lists ----

  method ReadRoles(items: seq<Json>) returns (r: Option<seq<CourtRole>>)
    ensures forall roles :: r == Some(roles) <==> GoodRoles(roles) && items == RoleList(roles)
  {
    hide RoleText, ParseRole;
    if !(1 <= |items| <= 2) {
      return None;
    }
    var read: seq<CourtRole> := [];
    var seen: set<Text> := {};
    for i := 0 to |items|
      invariant |read| == i && items[..i] == RoleList(read) && Different(read)
      invariant seen == set role <- read :: RoleText(role)
    {
      forall roles: seq<CourtRole> | GoodRoles(roles) && items == RoleList(roles)
        ensures items[i] == JText(RoleText(roles[i])) && items[i].text !in seen
      {
        RolesGoOn(items, roles, read, i);
      }
      var role := if items[i].JText? then ParseRole(items[i].text) else None;
      if role.None? || items[i].text in seen {
        return None;
      }
      seen := seen + {items[i].text};
      read := read + [role.value];
    }
    assert items[..|items|] == items;
    forall roles: seq<CourtRole> | GoodRoles(roles) && items == RoleList(roles) ensures roles == read {
      forall i | 0 <= i < |roles| ensures roles[i] == read[i] {
        assert items[i] == JText(RoleText(roles[i])) == JText(RoleText(read[i]));
        SameRole(roles[i], read[i]);
      }
    }
    r := Some(read);
  }

  lemma SameRole(a: CourtRole, b: CourtRole)
    ensures RoleText(a) == RoleText(b) ==> a == b
  {
    assert ParseRole(RoleText(a)) == Some(a) && ParseRole(RoleText(b)) == Some(b);
  }

  // What has been read agrees with any list of roles the items spell, and the next role is new.
  lemma RolesGoOn(items: seq<Json>, roles: seq<CourtRole>, read: seq<CourtRole>, i: nat)
    requires GoodRoles(roles) && items == RoleList(roles) && i < |items|
    requires |read| == i && items[..i] == RoleList(read)
    ensures items[i] == JText(RoleText(roles[i]))
    ensures forall role :: role in read ==> RoleText(role) != items[i].text
  {
    forall j | 0 <= j < i ensures read[j] == roles[j] && RoleText(read[j]) != RoleText(roles[i]) {
      assert items[..i][j] == items[j] == JText(RoleText(roles[j]));
      assert ParseRole(RoleText(read[j])) == Some(read[j]) == Some(roles[j]);
      assert ParseRole(RoleText(roles[i])) == Some(roles[i]);
    }
  }

  function ParseRole(t: Text): (r: Option<CourtRole>)
    ensures forall role :: r == Some(role) <==> RoleText(role) == t
  {
    if t == Ascii("district") then Some(District) else if t == Ascii("appellate") then Some(Appellate) else None
  }

  method ReadTexts(items: seq<Json>, maximum: nat, ok: Text -> bool) returns (r: Option<seq<Text>>)
    ensures forall texts :: r == Some(texts) <==> GoodTexts(texts, maximum, ok) && items == TextList(texts)
  {
    if !(1 <= |items| <= maximum) {
      return None;
    }
    var read: seq<Text> := [];
    var seen: set<Text> := {};
    for i := 0 to |items|
      invariant |read| == i && items[..i] == TextList(read) && Different(read)
      invariant forall j :: 0 <= j < i ==> ok(read[j])
      invariant seen == set t <- read
    {
      forall texts: seq<Text> | GoodTexts(texts, maximum, ok) && items == TextList(texts)
        ensures items[i] == JText(texts[i]) && ok(texts[i]) && texts[i] !in read
      {
        TextsGoOn(items, texts, read, i);
      }
      if !items[i].JText? || !ok(items[i].text) || items[i].text in seen {
        return None;
      }
      seen := seen + {items[i].text};
      read := read + [items[i].text];
    }
    assert items[..|items|] == items;
    forall texts: seq<Text> | items == TextList(texts) ensures texts == read {
      forall i | 0 <= i < |texts| ensures texts[i] == read[i] {
        assert items[i] == JText(texts[i]) == JText(read[i]);
      }
    }
    r := Some(read);
  }

  lemma TextsGoOn(items: seq<Json>, texts: seq<Text>, read: seq<Text>, i: nat)
    requires Different(texts) && items == TextList(texts) && i < |items| && |read| == i && items[..i] == TextList(read)
    ensures items[i] == JText(texts[i]) && texts[i] !in read
  {
    forall j | 0 <= j < i ensures read[j] == texts[j] {
      assert items[..i][j] == items[j] == JText(texts[j]);
    }
  }

  method ReadFocusItem(k: Classes, item: Json) returns (r: Option<IssueFocus>)
    ensures forall f :: r == Some(f) <==> NamespacedId(k, f.topicId) && Unit01(f.weight) && item == FocusTree(f)
  {
    if !item.JObject? || item.fields.Keys != {TopicId, Weight} {
      return None;
    }
    var topic, weight := item.fields[TopicId], item.fields[Weight];
    if !topic.JText? || !NamespacedId(k, topic.text) || !weight.JNumber? || !Unit01(weight.value) {
      return None;
    }
    assert item.fields == map[TopicId := topic, Weight := weight];
    r := Some(IssueFocus(topic.text, weight.value));
  }

  method ReadFocus(k: Classes, items: seq<Json>) returns (r: Option<seq<IssueFocus>>)
    ensures forall focus :: r == Some(focus) <==> GoodFocus(k, focus) && items == FocusList(focus)
  {
    hide FocusTree, NamespacedId;
    if !(1 <= |items| <= MAXIMUM_FOCUS) {
      return None;
    }
    var read: seq<IssueFocus> := [];
    var seen: set<Text> := {};
    for i := 0 to |items|
      invariant |read| == i && items[..i] == FocusList(read)
      invariant forall j :: 0 <= j < i ==> NamespacedId(k, read[j].topicId) && Unit01(read[j].weight)
      invariant forall j, l :: 0 <= j < l < i ==> read[j].topicId != read[l].topicId
      invariant seen == set f <- read :: f.topicId
    {
      forall focus: seq<IssueFocus> | GoodFocus(k, focus) && items == FocusList(focus)
        ensures items[i] == FocusTree(focus[i]) && NamespacedId(k, focus[i].topicId) && Unit01(focus[i].weight)
        ensures focus[i].topicId !in seen
      {
        FocusGoesOn(items, focus, read, i);
      }
      var item := ReadFocusItem(k, items[i]);
      if item.None? || item.value.topicId in seen {
        return None;
      }
      seen := seen + {item.value.topicId};
      read := read + [item.value];
      assert items[..i + 1] == items[..i] + [items[i]];
    }
    assert items[..|items|] == items;
    forall focus: seq<IssueFocus> | items == FocusList(focus) ensures focus == read {
      forall i | 0 <= i < |focus| ensures focus[i] == read[i] {
        assert items[i] == FocusTree(focus[i]) == FocusTree(read[i]);
        SameFocus(focus[i], read[i]);
      }
    }
    r := Some(read);
  }

  lemma FocusGoesOn(items: seq<Json>, focus: seq<IssueFocus>, read: seq<IssueFocus>, i: nat)
    requires forall j, l :: 0 <= j < l < |focus| ==> focus[j].topicId != focus[l].topicId
    requires items == FocusList(focus) && i < |items| && |read| == i && items[..i] == FocusList(read)
    ensures items[i] == FocusTree(focus[i])
    ensures forall f :: f in read ==> f.topicId != focus[i].topicId
  {
    hide FocusTree;
    forall j | 0 <= j < i ensures read[j] == focus[j] {
      assert items[..i][j] == items[j] == FocusTree(focus[j]);
      SameFocus(read[j], focus[j]);
    }
  }

  lemma SameFocus(a: IssueFocus, b: IssueFocus)
    ensures FocusTree(a) == FocusTree(b) ==> a == b
  {
    if FocusTree(a) == FocusTree(b) {
      assert FocusTree(a).fields[TopicId] == FocusTree(b).fields[TopicId];
      assert FocusTree(a).fields[Weight] == FocusTree(b).fields[Weight];
    }
  }

  // ---- Reading and checking a profile ----

  method ReadCompatibility(k: Classes, tree: Json) returns (r: Option<(seq<CourtRole>, seq<Text>)>)
    ensures forall roles, jurisdictions :: r == Some((roles, jurisdictions)) <==>
              GoodRoles(roles) && GoodJurisdictions(k, jurisdictions) && tree == CompatibilityTree(roles, jurisdictions)
  {
    hide GoodRoles, NamespacedId, RoleList, TextList;
    if !tree.JObject? || tree.fields.Keys != {CourtRoles, JurisdictionIds}
       || !tree.fields[CourtRoles].JList? || !tree.fields[JurisdictionIds].JList? {
      return None;
    }
    assert tree.fields == map[CourtRoles := tree.fields[CourtRoles], JurisdictionIds := tree.fields[JurisdictionIds]];
    var roles := ReadRoles(tree.fields[CourtRoles].items);
    var jurisdictions := ReadTexts(tree.fields[JurisdictionIds].items, MAXIMUM_JURISDICTIONS, t => NamespacedId(k, t));
    if roles.None? || jurisdictions.None? {
      return None;
    }
    r := Some((roles.value, jurisdictions.value));
  }

  predicate IsUnit(fields: map<Name, Json>, name: Name) {
    name in fields && fields[name].JNumber? && Unit01(fields[name].value)
  }

  method ReadInteraction(k: Classes, tree: Json) returns (r: Option<Interaction>)
    ensures forall x: Interaction :: r == Some(x) <==> GoodInteraction(k, x) && tree == InteractionTree(x)
  {
    hide GoodFocus, FocusList;
    if !tree.JObject?
       || tree.fields.Keys != {Directness, Formality, QuestionLength, InterruptionFrequency, FollowUpDepth,
                               HypotheticalFrequency, ConcessionRecall, RecordPinDemand, TimeStrictness,
                               IssueFocusName} {
      return None;
    }
    var f := tree.fields;
    if !IsUnit(f, Directness) || !IsUnit(f, Formality) || !IsUnit(f, QuestionLength)
       || !IsUnit(f, InterruptionFrequency)
       || !IsUnit(f, FollowUpDepth) || !IsUnit(f, HypotheticalFrequency) || !IsUnit(f, ConcessionRecall)
       || !IsUnit(f, RecordPinDemand) || !IsUnit(f, TimeStrictness) || !f[IssueFocusName].JList? {
      return None;
    }
    var focus := ReadFocus(k, f[IssueFocusName].items);
    if focus.None? {
      return None;
    }
    var x := Interaction(f[Directness].value, f[Formality].value, f[QuestionLength].value,
                         f[InterruptionFrequency].value,
                         f[FollowUpDepth].value, f[HypotheticalFrequency].value, f[ConcessionRecall].value,
                         f[RecordPinDemand].value, f[TimeStrictness].value, focus.value);
    assert f == InteractionTree(x).fields;
    forall y: Interaction | tree == InteractionTree(y)
      ensures y.(focus := x.focus) == x && FocusList(y.focus) == FocusList(x.focus) {
      SameControls(y, x);
    }
    r := Some(x);
  }

  lemma SameControls(x: Interaction, y: Interaction)
    requires InteractionTree(x) == InteractionTree(y)
    ensures x.(focus := y.focus) == y && FocusList(x.focus) == FocusList(y.focus)
  {
    hide FocusList;
    var f, g := InteractionTree(x).fields, InteractionTree(y).fields;
    assert f[Directness] == g[Directness] && f[Formality] == g[Formality] && f[QuestionLength] == g[QuestionLength];
    assert f[InterruptionFrequency] == g[InterruptionFrequency] && f[FollowUpDepth] == g[FollowUpDepth];
    assert f[HypotheticalFrequency] == g[HypotheticalFrequency] && f[ConcessionRecall] == g[ConcessionRecall];
    assert f[RecordPinDemand] == g[RecordPinDemand] && f[TimeStrictness] == g[TimeStrictness];
    assert f[IssueFocusName] == g[IssueFocusName];
  }

  function ParseRegister(t: Text): (r: Option<Register>)
    ensures forall x :: r == Some(x) <==> RegisterText(x) == t
  {
    if t == Ascii("plain") then Some(Plain) else if t == Ascii("formal") then Some(Formal)
    else if t == Ascii("technical") then Some(Technical) else None
  }

  function ParseCadence(t: Text): (r: Option<Cadence>)
    ensures forall x :: r == Some(x) <==> CadenceText(x) == t
  {
    if t == Ascii("clipped") then Some(Clipped) else if t == Ascii("measured") then Some(Measured)
    else if t == Ascii("expansive") then Some(Expansive) else None
  }

  function ParseFraming(t: Text): (r: Option<Framing>)
    ensures forall x :: r == Some(x) <==> FramingText(x) == t
  {
    if t == Ascii("direct") then Some(Direct) else if t == Ascii("socratic") then Some(Socratic)
    else if t == Ascii("narrative") then Some(Narrative) else None
  }

  function ParseAddress(t: Text): (r: Option<Address>)
    ensures forall x :: r == Some(x) <==> AddressText(x) == t
  {
    if t == Ascii("counsel") then Some(Counsel) else if t == Ascii("advocate") then Some(Advocate) else None
  }

  method ReadPhrases(k: Classes, tree: Json) returns (r: Option<seq<Text>>)
    ensures forall texts :: r == Some(texts) <==> GoodPhrases(k, texts) && tree == JList(TextList(texts))
  {
    hide TextList, PhraseText;
    if !tree.JList? {
      return None;
    }
    r := ReadTexts(tree.items, MAXIMUM_PHRASES, t => PhraseText(k, t));
  }

  // The fields of a written voice, one by one.
  ghost predicate VoiceHolds(f: map<Name, Json>, v: Voice) {
    && f.Keys == {RegisterName, CadenceName, QuestionFraming, AddressConvention, Verbosity, SentenceComplexity,
                  QuestionPhrases, InterruptionPhrases, ClarificationPhrases}
    && f[RegisterName] == JText(RegisterText(v.register)) && f[CadenceName] == JText(CadenceText(v.cadence))
    && f[QuestionFraming] == JText(FramingText(v.framing)) && f[AddressConvention] == JText(AddressText(v.address))
    && f[Verbosity] == JNumber(v.verbosity) && f[SentenceComplexity] == JNumber(v.complexity)
    && f[QuestionPhrases] == JList(TextList(v.questions))
    && f[InterruptionPhrases] == JList(TextList(v.interruptions))
    && f[ClarificationPhrases] == JList(TextList(v.clarifications))
  }

  lemma VoiceTreeHolds(tree: Json, v: Voice)
    ensures tree == VoiceTree(v) <==> tree.JObject? && VoiceHolds(tree.fields, v)
  {
    hide RegisterText, CadenceText, FramingText, AddressText, TextList;
    if tree.JObject? && VoiceHolds(tree.fields, v) {
      assert tree.fields == VoiceTree(v).fields;
    }
  }

  method ReadVoice(k: Classes, tree: Json) returns (r: Option<Voice>)
    ensures forall v :: r == Some(v) <==> GoodVoice(k, v) && tree == VoiceTree(v)
  {
    hide GoodPhrases, TextList, RegisterText, CadenceText, FramingText, AddressText, VoiceTree, ParseRegister,
         ParseCadence, ParseFraming, ParseAddress;
    forall v ensures tree == VoiceTree(v) <==> tree.JObject? && VoiceHolds(tree.fields, v) {
      VoiceTreeHolds(tree, v);
    }
    if !tree.JObject?
       || tree.fields.Keys != {RegisterName, CadenceName, QuestionFraming, AddressConvention, Verbosity,
                               SentenceComplexity,
                               QuestionPhrases, InterruptionPhrases, ClarificationPhrases} {
      return None;
    }
    r := ReadVoiceFields(k, tree.fields);
  }

  method ReadVoiceFields(k: Classes, f: map<Name, Json>) returns (r: Option<Voice>)
    requires f.Keys == {RegisterName, CadenceName, QuestionFraming, AddressConvention, Verbosity, SentenceComplexity,
                        QuestionPhrases, InterruptionPhrases, ClarificationPhrases}
    ensures forall v :: r == Some(v) <==> GoodVoice(k, v) && VoiceHolds(f, v)
  {
    hide GoodPhrases, TextList, RegisterText, CadenceText, FramingText, AddressText, ParseRegister, ParseCadence,
      ParseFraming, ParseAddress;
    if !f[RegisterName].JText? || !f[CadenceName].JText? || !f[QuestionFraming].JText? || !f[AddressConvention].JText?
       || !IsUnit(f, Verbosity) || !IsUnit(f, SentenceComplexity) {
      return None;
    }
    var register, cadence := ParseRegister(f[RegisterName].text), ParseCadence(f[CadenceName].text);
    var framing, address := ParseFraming(f[QuestionFraming].text), ParseAddress(f[AddressConvention].text);
    var questions := ReadPhrases(k, f[QuestionPhrases]);
    var interruptions := ReadPhrases(k, f[InterruptionPhrases]);
    var clarifications := ReadPhrases(k, f[ClarificationPhrases]);
    if register.None? || cadence.None? || framing.None? || address.None?
       || questions.None? || interruptions.None? || clarifications.None? {
      return None;
    }
    r := Some(Voice(register.value, cadence.value, framing.value, address.value, f[Verbosity].value,
                    f[SentenceComplexity].value, questions.value, interruptions.value, clarifications.value));
  }

  // Reads exactly the trees that valid profiles are written as: what is decoded is valid and is written as the tree
  // it was read from, and every valid profile is read back from its tree. The validation at the end never fails.
  method Decode(k: Classes, tree: Json) returns (r: Option<JudgeProfile>)
    ensures forall p :: r == Some(p) <==> Valid(k, p) && tree == Encode(p)
  {
    hide GoodRoles, GoodJurisdictions, GoodInteraction, GoodVoice, CompatibilityTree, InteractionTree, VoiceTree,
      NamespacedId, DisplayNameText, Ascii;
    if !tree.JObject?
       || tree.fields.Keys != {SchemaVersion, ResourceKind, ResourceId, DisplayName, ClassName, Compatibility,
                               InteractionName, VoiceName} {
      return None;
    }
    var f := tree.fields;
    if f[SchemaVersion] != JNumber(1.0) || f[ResourceKind] != JText(Ascii("judge_profile"))
       || f[ClassName] != JText(Ascii("fictional_composite")) {
      return None;
    }
    if !f[ResourceId].JText? || !NamespacedId(k, f[ResourceId].text)
       || !f[DisplayName].JText? || !DisplayNameText(k, f[DisplayName].text) {
      return None;
    }
    var compatibility := ReadCompatibility(k, f[Compatibility]);
    if compatibility.None? {
      return None;
    }
    var interaction := ReadInteraction(k, f[InteractionName]);
    if interaction.None? {
      return None;
    }
    var voice := ReadVoice(k, f[VoiceName]);
    if voice.None? {
      return None;
    }
    var p := JudgeProfile(f[ResourceId].text, f[DisplayName].text, FictionalComposite, compatibility.value.0,
                          compatibility.value.1, interaction.value, voice.value);
    assert f == Encode(p).fields;
    var valid := Validate(k, p);
    if !valid {
      assert false;
      return None;
    }
    r := Some(p);
  }

  // Writes exactly the valid profiles, and each so that it is read back.
  method Write(k: Classes, p: JudgeProfile) returns (r: Option<Json>)
    ensures r == if Valid(k, p) then Some(Encode(p)) else None
  {
    hide Encode;
    var valid := Validate(k, p);
    r := if valid then Some(Encode(p)) else None;
  }
}

/** The JSON grammar of sections 2 to 7 of RFC 8259, as trees that remember every character they were read from. */
module JsonGrammar {
  import opened Utf16Text

  const QUOTE: Unit := 0x22
  const PLUS: Unit := 0x2B
  const COMMA: Unit := 0x2C
  const MINUS: Unit := 0x2D
  const DOT: Unit := 0x2E
  const ZERO: Unit := 0x30
  const COLON: Unit := 0x3A
  const UPPER_E: Unit := 0x45
  const LEFT_BRACKET: Unit := 0x5B
  const BACKSLASH: Unit := 0x5C
  const RIGHT_BRACKET: Unit := 0x5D
  const LOWER_E: Unit := 0x65
  const LOWER_U: Unit := 0x75
  const LEFT_BRACE: Unit := 0x7B
  const RIGHT_BRACE: Unit := 0x7D
  const TRUE: Text := [0x74, 0x72, 0x75, 0x65]
  const FALSE: Text := [0x66, 0x61, 0x6C, 0x73, 0x65]
  const NULL: Text := [0x6E, 0x75, 0x6C, 0x6C]

  predicate IsSpace(u: Unit) {
    u == 0x20 || u == 0x09 || u == 0x0A || u == 0x0D
  }

  predicate Blank(w: Text) {
    forall i :: 0 <= i < |w| ==> IsSpace(w[i])
  }

  // ---- Digits ----

  predicate AsciiDigit(u: Unit) {
    0x30 <= u <= 0x39
  }

  // A class of digits that adds nothing among the ASCII characters.
  ghost predicate DigitClass(digit: Unit -> bool) {
    forall u: Unit :: u < 0x80 ==> (digit(u) <==> AsciiDigit(u))
  }

  predicate AllDigits(w: Text, digit: Unit -> bool) {
    forall i :: 0 <= i < |w| ==> digit(w[i])
  }

  // ---- Numbers: section 6 ----

  datatype Exponent = Exponent(mark: Unit, sign: Text, digits: Text)

  datatype Numeral = Numeral(negative: bool, whole: Text, fraction: Option<Text>, exponent: Option<Exponent>)

  function SpellFraction(fraction: Option<Text>): Text {
    match fraction case None => [] case Some(digits) => [DOT] + digits
  }

  function SpellExponent(exponent: Option<Exponent>): Text {
    match exponent case None => [] case Some(e) => [e.mark] + (e.sign + e.digits)
  }

  function SpellNumeral(n: Numeral): Text {
    (if n.negative then [MINUS] else []) + (n.whole + (SpellFraction(n.fraction) + SpellExponent(n.exponent)))
  }

  predicate GoodWhole(whole: Text, digit: Unit -> bool) {
    whole == [ZERO] || (whole != [] && 0x31 <= whole[0] <= 0x39 && AllDigits(whole[1..], digit))
  }

  predicate GoodExponent(e: Exponent, digit: Unit -> bool) {
    && (e.mark == LOWER_E || e.mark == UPPER_E)
    && (e.sign == [] || e.sign == [PLUS] || e.sign == [MINUS])
    && e.digits != [] && AllDigits(e.digits, digit)
  }

  predicate GoodNumeral(n: Numeral, digit: Unit -> bool) {
    && GoodWhole(n.whole, digit)
    && (n.fraction.Some? ==> n.fraction.value != [] && AllDigits(n.fraction.value, digit))
    && (n.exponent.Some? ==> GoodExponent(n.exponent.value, digit))
  }

  // ---- Strings: section 7 ----

  datatype Character = Plain(unit: Unit) | Escape(letter: Unit) | Unicode(hex: Text)

  function HexValue(u: Unit): (v: Option<nat>)
    ensures v.Some? ==> v.value < 16
  {
    if 0x30 <= u <= 0x39 then Some(u - 0x30)
    else if 0x61 <= u <= 0x66 then Some(u - 0x61 + 10)
    else if 0x41 <= u <= 0x46 then Some(u - 0x41 + 10)
    else None
  }

  // The value of a digit is its place among the sixteen, in lower or upper case.
  lemma HexValueExactly(u: Unit, v: nat)
    ensures HexValue(u) == Some(v) <==>
            v < 16 && (u == "0123456789abcdef"[v] as int || u == "0123456789ABCDEF"[v] as int)
  {
  }

  predicate AllHex(hex: Text) {
    forall i :: 0 <= i < |hex| ==> HexValue(hex[i]).Some?
  }

  function Power16(n: nat): nat {
    if n == 0 then 1 else 16 * Power16(n - 1)
  }

  function HexNumber(hex: Text): (n: nat)
    requires AllHex(hex)
    ensures n < Power16(|hex|)
  {
    if hex == [] then 0 else HexNumber(hex[..|hex| - 1]) * 16 + HexValue(hex[|hex| - 1]).value
  }

  function HexUnit(hex: Text): Unit
    requires |hex| == 4 && AllHex(hex)
  {
    assert Power16(4) == 16 * (16 * (16 * (16 * Power16(0))));
    HexNumber(hex)
  }

  // What a one-letter escape stands for.
  function EscapeValue(letter: Unit): Option<Unit> {
    if letter == QUOTE || letter == BACKSLASH || letter == 0x2F then Some(letter)
    else if letter == 0x62 then Some(0x08)
    else if letter == 0x66 then Some(0x0C)
    else if letter == 0x6E then Some(0x0A)
    else if letter == 0x72 then Some(0x0D)
    else if letter == 0x74 then Some(0x09)
    else None
  }

  predicate GoodCharacter(c: Character) {
    match c
    case Plain(u) => u >= 0x20 && u != QUOTE && u != BACKSLASH
    case Escape(letter) => EscapeValue(letter).Some?
    case Unicode(hex) => |hex| == 4 && AllHex(hex)
  }

  function Meaning(c: Character): Unit
    requires GoodCharacter(c)
  {
    match c
    case Plain(u) => u
    case Escape(letter) => EscapeValue(letter).value
    case Unicode(hex) => HexUnit(hex)
  }

  function SpellCharacter(c: Character): (w: Text)
    ensures w != []
  {
    match c
    case Plain(u) => [u]
    case Escape(letter) => [BACKSLASH, letter]
    case Unicode(hex) => [BACKSLASH, LOWER_U] + hex
  }

  predicate GoodCharacters(cs: seq<Character>) {
    forall i :: 0 <= i < |cs| ==> GoodCharacter(cs[i])
  }

  // The characters up to and including the closing quote.
  function SpellCharacters(cs: seq<Character>): Text {
    if cs == [] then [QUOTE] else SpellCharacter(cs[0]) + SpellCharacters(cs[1..])
  }

  function SpellString(cs: seq<Character>): Text {
    [QUOTE] + SpellCharacters(cs)
  }

  // The text a string stands for once its escapes are decoded.
  function DecodedText(cs: seq<Character>): Text
    requires GoodCharacters(cs)
  {
    if cs == [] then [] else [Meaning(cs[0])] + DecodedText(cs[1..])
  }

  // ---- Values, arrays and objects: sections 3 to 5 ----

  datatype Value =
    | Literal(word: Text)
    | Number(numeral: Numeral)
    | String(characters: seq<Character>)
    | EmptyArray(space: Text)
    | Array(space: Text, items: Items)
    | EmptyObject(space: Text)
    | Object(space: Text, members: Members)

  // From the first item to the closing bracket.
  datatype Items =
    | LastItem(value: Value, after: Text)
    | MoreItems(value: Value, after: Text, before: Text, rest: Items)

  // From the first key to the closing brace.
  datatype Members =
    | LastMember(key: seq<Character>, afterKey: Text, beforeValue: Text, value: Value, after: Text)
    | MoreMembers(key: seq<Character>, afterKey: Text, beforeValue: Text, value: Value, after: Text, before: Text,
                  rest: Members)

  function Spell(v: Value): Text {
    match v
    case Literal(word) => word
    case Number(numeral) => SpellNumeral(numeral)
    case String(characters) => SpellString(characters)
    case EmptyArray(space) => [LEFT_BRACKET] + (space + [RIGHT_BRACKET])
    case Array(space, items) => [LEFT_BRACKET] + (space + SpellItems(items))
    case EmptyObject(space) => [LEFT_BRACE] + (space + [RIGHT_BRACE])
    case Object(space, members) => [LEFT_BRACE] + (space + SpellMembers(members))
  }

  function SpellItems(items: Items): Text {
    match items
    case LastItem(value, after) => Spell(value) + (after + [RIGHT_BRACKET])
    case MoreItems(value, after, before, rest) => Spell(value) + (after + ([COMMA] + (before + SpellItems(rest))))
  }

  // Key, colon and value, with the space between them.
  function SpellPair(key: seq<Character>, afterKey: Text, beforeValue: Text, value: Text): Text {
    SpellString(key) + (afterKey + ([COLON] + (beforeValue + value)))
  }

  function SpellMembers(members: Members): Text {
    match members
    case LastMember(key, afterKey, beforeValue, value, after) =>
      SpellPair(key, afterKey, beforeValue, Spell(value)) + (after + [RIGHT_BRACE])
    case MoreMembers(key, afterKey, beforeValue, value, after, before, rest) =>
      SpellPair(key, afterKey, beforeValue, Spell(value)) + (after + ([COMMA] + (before + SpellMembers(rest))))
  }

  predicate GoodValue(v: Value, digit: Unit -> bool) {
    match v
    case Literal(word) => word == TRUE || word == FALSE || word == NULL
    case Number(numeral) => GoodNumeral(numeral, digit)
    case String(characters) => GoodCharacters(characters)
    case EmptyArray(space) => Blank(space)
    case Array(space, items) => Blank(space) && GoodItems(items, digit)
    case EmptyObject(space) => Blank(space)
    case Object(space, members) => Blank(space) && GoodMembers(members, digit)
  }

  predicate GoodItems(items: Items, digit: Unit -> bool) {
    && GoodValue(items.value, digit)
    && Blank(items.after)
    && (items.MoreItems? ==> Blank(items.before) && GoodItems(items.rest, digit))
  }

  predicate GoodMembers(members: Members, digit: Unit -> bool) {
    && GoodCharacters(members.key)
    && Blank(members.afterKey) && Blank(members.beforeValue)
    && GoodValue(members.value, digit)
    && Blank(members.after)
    && (members.MoreMembers? ==> Blank(members.before) && GoodMembers(members.rest, digit))
  }

  // ---- Nesting and repeated keys ----

  function Max(a: nat, b: nat): nat {
    if a < b then b else a
  }

  // How many arrays and objects enclose the most deeply nested value inside.
  function Nesting(v: Value): nat {
    match v
    case Array(_, items) => 1 + ItemsNesting(items)
    case Object(_, members) => 1 + MembersNesting(members)
    case _ => 0
  }

  function ItemsNesting(items: Items): nat {
    match items
    case LastItem(value, _) => Nesting(value)
    case MoreItems(value, _, _, rest) => Max(Nesting(value), ItemsNesting(rest))
  }

  function MembersNesting(members: Members): nat {
    match members
    case LastMember(_, _, _, value, _) => Nesting(value)
    case MoreMembers(_, _, _, value, _, _, rest) => Max(Nesting(value), MembersNesting(rest))
  }

  // The decoded keys of an object, in order.
  function Keys(members: Members, digit: Unit -> bool): seq<Text>
    requires GoodMembers(members, digit)
  {
    [DecodedText(members.key)] + if members.MoreMembers? then Keys(members.rest, digit) else []
  }

  predicate AllDifferent(keys: seq<Text>) {
    forall i, j :: 0 <= i < j < |keys| ==> keys[i] != keys[j]
  }

  // No object inside repeats a key.
  predicate DistinctKeys(v: Value, digit: Unit -> bool)
    requires GoodValue(v, digit)
  {
    match v
    case Array(_, items) => DistinctInItems(items, digit)
    case Object(_, members) => AllDifferent(Keys(members, digit)) && DistinctInMembers(members, digit)
    case _ => true
  }

  predicate DistinctInItems(items: Items, digit: Unit -> bool)
    requires GoodItems(items, digit)
  {
    DistinctKeys(items.value, digit) && (items.MoreItems? ==> DistinctInItems(items.rest, digit))
  }

  predicate DistinctInMembers(members: Members, digit: Unit -> bool)
    requires GoodMembers(members, digit)
  {
    DistinctKeys(members.value, digit) && (members.MoreMembers? ==> DistinctInMembers(members.rest, digit))
  }

  // ---- Whole texts ----

  // A value with space around it.
  ghost predicate Reads(input: Text, digit: Unit -> bool, v: Value, before: Text, after: Text) {
    GoodValue(v, digit) && Blank(before) && Blank(after) && input == before + (Spell(v) + after)
  }
}

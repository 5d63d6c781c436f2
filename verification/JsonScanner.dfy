/** The scanner that reads a profile's text before it is parsed: one pass, by recursive descent. */
module JsonScanner {
  import opened Utf16Text
  import opened JsonGrammar

  const MAXIMUM_DEPTH := 32

  datatype ErrorCode = InvalidJson | DuplicateJsonKey

  // Where a part ends, or why it cannot be read.
  datatype Step = To(next: nat) | Bad(code: ErrorCode)

  datatype Key = Read(next: nat, text: Text) | Unread

  // ---- What each part of the scanner does from a position ----

  function SkipSpace(s: Text, at: nat): (next: nat)
    requires at <= |s|
    ensures at <= next <= |s|
    decreases |s| - at
  {
    if at < |s| && IsSpace(s[at]) then SkipSpace(s, at + 1) else at
  }

  function SkipDigits(s: Text, at: nat, digit: Unit -> bool): (next: nat)
    requires at <= |s|
    ensures at <= next <= |s|
    decreases |s| - at
  {
    if at < |s| && digit(s[at]) then SkipDigits(s, at + 1, digit) else at
  }

  predicate Starts(s: Text, at: nat, u: Unit) {
    at < |s| && s[at] == u
  }

  function ScanEscape(s: Text, at: nat): (key: Key)
    requires at <= |s|
    ensures key.Read? ==> at < key.next <= |s| && |key.text| == 1
  {
    if at >= |s| then Unread
    else if EscapeValue(s[at]).Some? then Read(at + 1, [EscapeValue(s[at]).value])
    else if s[at] == LOWER_U && |s| - (at + 1) >= 4 && AllHex(s[at + 1..at + 5]) then
      Read(at + 5, [HexUnit(s[at + 1..at + 5])])
    else Unread
  }

  // The rest of a string, after its opening quote.
  function ScanCharacters(s: Text, at: nat): (key: Key)
    requires at <= |s|
    ensures key.Read? ==> at < key.next <= |s|
    decreases |s| - at
  {
    if at >= |s| || (s[at] < 0x20 && s[at] != QUOTE) then Unread
    else if s[at] == QUOTE then Read(at + 1, [])
    else
      var first := if s[at] == BACKSLASH then ScanEscape(s, at + 1) else Read(at + 1, [s[at]]);
      if first.Unread? then Unread else Prepend(first.text, ScanCharacters(s, first.next))
  }

  function Prepend(text: Text, key: Key): Key {
    match key case Unread => Unread case Read(next, more) => Read(next, text + more)
  }

  function ScanString(s: Text, at: nat): (key: Key)
    requires at <= |s|
    ensures key.Read? ==> at < key.next <= |s|
  {
    if Starts(s, at, QUOTE) then ScanCharacters(s, at + 1) else Unread
  }

  function ScanWhole(s: Text, at: nat, digit: Unit -> bool): (step: Step)
    requires at <= |s|
    ensures step.To? ==> at < step.next <= |s|
  {
    if Starts(s, at, ZERO) then
      if at + 1 < |s| && digit(s[at + 1]) then Bad(InvalidJson) else To(at + 1)
    else if at >= |s| || !(0x31 <= s[at] <= 0x39) then Bad(InvalidJson)
    else To(SkipDigits(s, at + 1, digit))
  }

  function ScanFraction(s: Text, at: nat, digit: Unit -> bool): (step: Step)
    requires at <= |s|
    ensures step.To? ==> at <= step.next <= |s|
  {
    if !Starts(s, at, DOT) then To(at)
    else if SkipDigits(s, at + 1, digit) == at + 1 then Bad(InvalidJson)
    else To(SkipDigits(s, at + 1, digit))
  }

  function ScanExponent(s: Text, at: nat, digit: Unit -> bool): (step: Step)
    requires at <= |s|
    ensures step.To? ==> at <= step.next <= |s|
  {
    if !Starts(s, at, LOWER_E) && !Starts(s, at, UPPER_E) then To(at)
    else
      var start := if Starts(s, at + 1, PLUS) || Starts(s, at + 1, MINUS) then at + 2 else at + 1;
      if SkipDigits(s, start, digit) == start then Bad(InvalidJson) else To(SkipDigits(s, start, digit))
  }

  function ScanNumber(s: Text, at: nat, digit: Unit -> bool): (step: Step)
    requires at <= |s|
    ensures step.To? ==> at < step.next <= |s|
  {
    var whole := ScanWhole(s, if Starts(s, at, MINUS) then at + 1 else at, digit);
    if whole.Bad? then whole
    else
      var fraction := ScanFraction(s, whole.next, digit);
      if fraction.Bad? then fraction else ScanExponent(s, fraction.next, digit)
  }

  predicate StartsWith(s: Text, at: nat, word: Text) {
    at + |word| <= |s| && s[at..at + |word|] == word
  }

  function ScanWord(s: Text, at: nat, word: Text): (step: Step)
    requires at <= |s| && word != []
    ensures step.To? ==> at < step.next <= |s|
  {
    if StartsWith(s, at, word) then To(at + |word|) else Bad(InvalidJson)
  }

  function ScanValue(s: Text, at: nat, depth: nat, digit: Unit -> bool): (step: Step)
    requires at <= |s|
    ensures step.To? ==> at < step.next <= |s|
    decreases |s| - at, 2
  {
    if depth > MAXIMUM_DEPTH || at >= |s| then Bad(InvalidJson)
    else if s[at] == LEFT_BRACE then ScanObject(s, at, depth, digit)
    else if s[at] == LEFT_BRACKET then ScanArray(s, at, depth, digit)
    else if s[at] == QUOTE then
      match ScanString(s, at) case Unread => Bad(InvalidJson) case Read(next, _) => To(next)
    else if s[at] == TRUE[0] then ScanWord(s, at, TRUE)
    else if s[at] == FALSE[0] then ScanWord(s, at, FALSE)
    else if s[at] == NULL[0] then ScanWord(s, at, NULL)
    else if s[at] == MINUS || digit(s[at]) then ScanNumber(s, at, digit)
    else Bad(InvalidJson)
  }

  function ScanArray(s: Text, at: nat, depth: nat, digit: Unit -> bool): (step: Step)
    requires Starts(s, at, LEFT_BRACKET)
    ensures step.To? ==> at < step.next <= |s|
    decreases |s| - at, 1
  {
    var first := SkipSpace(s, at + 1);
    if Starts(s, first, RIGHT_BRACKET) then To(first + 1) else ScanItems(s, first, depth, digit)
  }

  function ScanItems(s: Text, at: nat, depth: nat, digit: Unit -> bool): (step: Step)
    requires at <= |s|
    ensures step.To? ==> at < step.next <= |s|
    decreases |s| - at, 3
  {
    var value := ScanValue(s, at, depth + 1, digit);
    if value.Bad? then value
    else
      var end := SkipSpace(s, value.next);
      if Starts(s, end, RIGHT_BRACKET) then To(end + 1)
      else if Starts(s, end, COMMA) then ScanItems(s, SkipSpace(s, end + 1), depth, digit)
      else Bad(InvalidJson)
  }

  function ScanObject(s: Text, at: nat, depth: nat, digit: Unit -> bool): (step: Step)
    requires Starts(s, at, LEFT_BRACE)
    ensures step.To? ==> at < step.next <= |s|
    decreases |s| - at, 1
  {
    var first := SkipSpace(s, at + 1);
    if Starts(s, first, RIGHT_BRACE) then To(first + 1) else ScanMembers(s, first, depth, {}, digit)
  }

  // From a key to the end of its value; `keys` are those the object already has.
  function ScanPair(s: Text, at: nat, depth: nat, keys: set<Text>, digit: Unit -> bool): (step: Step)
    requires at <= |s|
    ensures step.To? ==> at < step.next <= |s| && ScanString(s, at).Read?
    decreases |s| - at, 3
  {
    var key := ScanString(s, at);
    if key.Unread? then Bad(InvalidJson)
    else if key.text in keys then Bad(DuplicateJsonKey)
    else
      var colon := SkipSpace(s, key.next);
      if !Starts(s, colon, COLON) then Bad(InvalidJson)
      else ScanValue(s, SkipSpace(s, colon + 1), depth + 1, digit)
  }

  function ScanMembers(s: Text, at: nat, depth: nat, keys: set<Text>, digit: Unit -> bool): (step: Step)
    requires at <= |s|
    ensures step.To? ==> at < step.next <= |s|
    decreases |s| - at, 4
  {
    var pair := ScanPair(s, at, depth, keys, digit);
    if pair.Bad? then pair
    else
      var end := SkipSpace(s, pair.next);
      if Starts(s, end, RIGHT_BRACE) then To(end + 1)
      else if Starts(s, end, COMMA) then
        ScanMembers(s, SkipSpace(s, end + 1), depth, keys + {ScanString(s, at).text}, digit)
      else Bad(InvalidJson)
  }

  // The answer for a whole text: no error, or the first one met.
  function ScanText(s: Text, digit: Unit -> bool): Option<ErrorCode> {
    match ScanValue(s, SkipSpace(s, 0), 0, digit)
    case Bad(code) => Some(code)
    case To(next) => if SkipSpace(s, next) == |s| then None else Some(InvalidJson)
  }

  // ---- The scanner ----

  class RawJsonScanner {
    const input: Text
    const digit: Unit -> bool
    var position: nat

    ghost predicate Valid()
      reads this
    {
      position <= |input|
    }

    constructor (input: Text, digit: Unit -> bool)
      ensures Valid() && position == 0 && this.input == input && this.digit == digit
    {
      this.input, this.digit, position := input, digit, 0;
    }

    // The position after a step that succeeds; a step that fails leaves it somewhere in the text.
    ghost predicate Did(step: Step, error: Option<ErrorCode>)
      reads this
    {
      && Valid()
      && (match step case Bad(code) => error == Some(code) case To(next) => error.None? && position == next)
    }

    method SkipWhitespace()
      requires Valid()
      modifies `position
      ensures Valid() && position == SkipSpace(input, old(position))
    {
      while position < |input| && IsSpace(input[position])
        invariant Valid() && old(position) <= position
        invariant SkipSpace(input, position) == SkipSpace(input, old(position))
      {
        position := position + 1;
      }
    }

    method Consume(expected: Unit) returns (consumed: bool)
      requires Valid()
      modifies `position
      ensures Valid()
      ensures consumed <==> Starts(input, old(position), expected)
      ensures position == if consumed then old(position) + 1 else old(position)
    {
      if position >= |input| || input[position] != expected {
        return false;
      }
      position := position + 1;
      consumed := true;
    }

    method ConsumeLiteral(word: Text) returns (consumed: bool)
      requires Valid()
      modifies `position
      ensures Valid()
      ensures consumed <==> StartsWith(input, old(position), word)
      ensures position == if consumed then old(position) + |word| else old(position)
    {
      consumed := word <= input[position..];
      assert position + |word| <= |input| ==> input[position..][..|word|] == input[position..position + |word|];
      if consumed {
        position := position + |word|;
      }
    }

    method ParseHexDigits() returns (unit: Option<Unit>)
      requires Valid() && |input| - position >= 4
      modifies `position
      ensures Valid()
      ensures unit.Some? <==> AllHex(input[old(position)..old(position) + 4])
      ensures unit.Some? ==> position == old(position) + 4 && unit.value == HexUnit(input[old(position)..position])
    {
      var start, code := position, 0;
      for i := 0 to 4
        invariant Valid() && position == start + i
        invariant AllHex(input[start..position]) && code == HexNumber(input[start..position])
      {
        assert input[start..position + 1][..i] == input[start..position];
        var digitValue := HexValue(input[position]);
        position := position + 1;
        if digitValue.None? {
          assert input[start..start + 4][i] == input[start + i];
          return None;
        }
        assert input[start..position] == input[start..position - 1] + [input[position - 1]];
        code := code * 16 + digitValue.value;
      }
      assert code == HexUnit(input[start..start + 4]);
      unit := Some(code);
    }

    // One escape, after its backslash.
    method ParseEscape() returns (decoded: Option<Unit>)
      requires Valid()
      modifies `position
      ensures Valid()
      ensures match ScanEscape(input, old(position))
              case Unread => decoded.None?
              case Read(next, text) => decoded.Some? && text == [decoded.value] && position == next
    {
      if position >= |input| {
        return None;
      }
      var escaped := input[position];
      position := position + 1;
      if escaped == QUOTE || escaped == BACKSLASH || escaped == '/' as int {
        return Some(escaped);
      }
      match escaped {
        case 0x62 => return Some(0x08);
        case 0x66 => return Some(0x0C);
        case 0x6E => return Some(0x0A);
        case 0x72 => return Some(0x0D);
        case 0x74 => return Some(0x09);
        case _ =>
      }
      if escaped != LOWER_U || |input| - position < 4 {
        return None;
      }
      decoded := ParseHexDigits();
    }

    method ParseString() returns (key: Option<Text>)
      requires Valid()
      modifies `position
      ensures Valid()
      ensures match ScanString(input, old(position))
              case Unread => key.None?
              case Read(next, text) => key == Some(text) && position == next
    {
      var entered := Consume(QUOTE);
      if !entered {
        return None;
      }
      var result: Text := [];
      ghost var goal := ScanCharacters(input, position);
      assert Prepend([], goal) == goal;
      while position < |input|
        invariant Valid()
        invariant Prepend(result, ScanCharacters(input, position)) == goal
      {
        var character := input[position];
        position := position + 1;
        if character == QUOTE {
          assert result + [] == result;
          return Some(result);
        }
        if character < 0x20 {
          return None;
        }
        if character != BACKSLASH {
          PrependTwice(result, [character], ScanCharacters(input, position));
          result := result + [character];
        } else {
          var decoded := ParseEscape();
          if decoded.None? {
            return None;
          }
          PrependTwice(result, [decoded.value], ScanCharacters(input, position));
          result := result + [decoded.value];
        }
      }
      key := None;
    }

    method ParseDigits() returns (some: bool)
      requires Valid()
      modifies `position
      ensures Valid() && position == SkipDigits(input, old(position), digit)
      ensures some <==> position != old(position)
    {
      var start := position;
      while position < |input| && digit(input[position])
        invariant Valid() && start <= position
        invariant SkipDigits(input, position, digit) == SkipDigits(input, start, digit)
      {
        position := position + 1;
      }
      some := start != position;
    }

    method ParseWhole() returns (error: Option<ErrorCode>)
      requires Valid()
      modifies `position
      ensures Did(ScanWhole(input, old(position), digit), error)
    {
      var zero := Consume(ZERO);
      if zero {
        return if position < |input| && digit(input[position]) then Some(InvalidJson) else None;
      }
      if position >= |input| || input[position] < 0x31 || input[position] > 0x39 {
        return Some(InvalidJson);
      }
      position := position + 1;
      var some := ParseDigits();
      error := None;
    }

    method ParseFraction() returns (error: Option<ErrorCode>)
      requires Valid()
      modifies `position
      ensures Did(ScanFraction(input, old(position), digit), error)
    {
      var dot := Consume(DOT);
      if !dot {
        return None;
      }
      var some := ParseDigits();
      error := if some then None else Some(InvalidJson);
    }

    method ParseExponent() returns (error: Option<ErrorCode>)
      requires Valid()
      modifies `position
      ensures Did(ScanExponent(input, old(position), digit), error)
    {
      if position < |input| && (input[position] == LOWER_E || input[position] == UPPER_E) {
        position := position + 1;
        if position < |input| && (input[position] == PLUS || input[position] == MINUS) {
          position := position + 1;
        }
        var some := ParseDigits();
        return if some then None else Some(InvalidJson);
      }
      error := None;
    }

    method ParseNumber() returns (error: Option<ErrorCode>)
      requires Valid()
      modifies `position
      ensures Did(ScanNumber(input, old(position), digit), error)
    {
      hide ScanWhole, ScanFraction, ScanExponent;
      var minus := Consume(MINUS);
      error := ParseWhole();
      if error.Some? {
        return;
      }
      error := ParseFraction();
      if error.Some? {
        return;
      }
      error := ParseExponent();
    }

    method ParseValue(depth: nat) returns (error: Option<ErrorCode>)
      requires Valid()
      modifies `position
      ensures Did(ScanValue(input, old(position), depth, digit), error)
      decreases |input| - position, 2
    {
      hide ScanObject, ScanArray, ScanString, ScanNumber;
      if depth > MAXIMUM_DEPTH || position >= |input| {
        return Some(InvalidJson);
      }
      var first := input[position];
      if first == LEFT_BRACE {
        error := ParseObject(depth);
      } else if first == LEFT_BRACKET {
        error := ParseArray(depth);
      } else if first == QUOTE {
        var key := ParseString();
        error := if key.Some? then None else Some(InvalidJson);
      } else if first == TRUE[0] {
        var matched := ConsumeLiteral(TRUE);
        error := if matched then None else Some(InvalidJson);
      } else if first == FALSE[0] {
        var matched := ConsumeLiteral(FALSE);
        error := if matched then None else Some(InvalidJson);
      } else if first == NULL[0] {
        var matched := ConsumeLiteral(NULL);
        error := if matched then None else Some(InvalidJson);
      } else if first == MINUS || digit(first) {
        error := ParseNumber();
      } else {
        error := Some(InvalidJson);
      }
    }

    method ParseArray(depth: nat) returns (error: Option<ErrorCode>)
      requires Valid() && Starts(input, position, LEFT_BRACKET)
      modifies `position
      ensures Did(ScanArray(input, old(position), depth, digit), error)
      decreases |input| - position, 1
    {
      hide ScanValue;
      var entered := Consume(LEFT_BRACKET);
      SkipWhitespace();
      var closed := Consume(RIGHT_BRACKET);
      if closed {
        return None;
      }
      ghost var goal := ScanItems(input, position, depth, digit);
      while true
        invariant Valid() && old(position) < position
        invariant ScanItems(input, position, depth, digit) == goal
        decreases |input| - position
      {
        error := ParseValue(depth + 1);
        if error.Some? {
          return;
        }
        SkipWhitespace();
        closed := Consume(RIGHT_BRACKET);
        if closed {
          return None;
        }
        var comma := Consume(COMMA);
        if !comma {
          return Some(InvalidJson);
        }
        SkipWhitespace();
      }
    }

    method ParsePair(depth: nat, keys: set<Text>) returns (error: Option<ErrorCode>, key: Text)
      requires Valid()
      modifies `position
      ensures Did(ScanPair(input, old(position), depth, keys, digit), error)
      ensures error.None? ==> position > old(position) && key == ScanString(input, old(position)).text
      decreases |input| - position, 3
    {
      hide ScanValue, ScanString;
      var read := ParseString();
      if read.None? {
        return Some(InvalidJson), [];
      }
      key := read.value;
      if key in keys {
        return Some(DuplicateJsonKey), [];
      }
      SkipWhitespace();
      var colon := Consume(COLON);
      if !colon {
        return Some(InvalidJson), [];
      }
      SkipWhitespace();
      error := ParseValue(depth + 1);
    }

    method ParseObject(depth: nat) returns (error: Option<ErrorCode>)
      requires Valid() && Starts(input, position, LEFT_BRACE)
      modifies `position
      ensures Did(ScanObject(input, old(position), depth, digit), error)
      decreases |input| - position, 1
    {
      hide ScanPair, ScanString;
      var entered := Consume(LEFT_BRACE);
      SkipWhitespace();
      var closed := Consume(RIGHT_BRACE);
      if closed {
        return None;
      }
      var keys: set<Text> := {};
      ghost var goal := ScanMembers(input, position, depth, keys, digit);
      while true
        invariant Valid() && old(position) < position
        invariant ScanMembers(input, position, depth, keys, digit) == goal
        decreases |input| - position
      {
        var key;
        error, key := ParsePair(depth, keys);
        if error.Some? {
          return;
        }
        keys := keys + {key};
        SkipWhitespace();
        closed := Consume(RIGHT_BRACE);
        if closed {
          return None;
        }
        var comma := Consume(COMMA);
        if !comma {
          return Some(InvalidJson);
        }
        SkipWhitespace();
      }
    }

    method Scan() returns (error: Option<ErrorCode>)
      requires Valid() && position == 0
      modifies `position
      ensures error == ScanText(input, digit)
    {
      hide ScanValue;
      SkipWhitespace();
      error := ParseValue(0);
      if error.Some? {
        return;
      }
      SkipWhitespace();
      if position != |input| {
        return Some(InvalidJson);
      }
    }
  }

  lemma PrependTwice(a: Text, b: Text, key: Key)
    ensures Prepend(a, Prepend(b, key)) == Prepend(a + b, key)
  {
  }
}

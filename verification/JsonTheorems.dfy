/** The scanner accepts exactly the JSON texts nested at most 32 deep in which no object repeats a key. */
module JsonTheorems {
  import opened Utf16Text
  import opened JsonGrammar
  import opened JsonScanner

  lemma SplitStart(s: Text, at: nat, a: Text, b: Text)
    ensures StartsWith(s, at, a + b) <==> StartsWith(s, at, a) && StartsWith(s, at + |a|, b)
    ensures StartsWith(s, at, a + b) ==> at + |a| + |b| <= |s|
  {
    var w := a + b;
    if at + |w| <= |s| {
      assert s[at..at + |w|] == s[at..at + |a|] + s[at + |a|..at + |w|];
      if StartsWith(s, at, w) {
        assert w[..|a|] == a && w[|a|..] == b;
        assert s[at..at + |w|][..|a|] == s[at..at + |a|];
        assert s[at..at + |w|][|a|..] == s[at + |a|..at + |w|];
      }
    }
  }

  lemma OneStart(s: Text, at: nat, u: Unit)
    ensures StartsWith(s, at, [u]) <==> Starts(s, at, u)
  {
    if at < |s| {
      assert s[at..at + 1] == [s[at]];
    }
  }

  lemma Join(s: Text, a: nat, b: nat, c: nat)
    requires a <= b <= c <= |s|
    ensures s[a..c] == s[a..b] + s[b..c]
  {
  }

  // ---- Space and digits ----

  lemma {:induction false} SpaceIsBlank(s: Text, at: nat)
    requires at <= |s|
    ensures Blank(s[at..SkipSpace(s, at)])
    decreases |s| - at
  {
    if at < |s| && IsSpace(s[at]) {
      SpaceIsBlank(s, at + 1);
      assert s[at..SkipSpace(s, at)] == [s[at]] + s[at + 1..SkipSpace(s, at)];
    }
  }

  predicate NoSpace(s: Text, at: nat) {
    at >= |s| || !IsSpace(s[at])
  }

  lemma {:induction false} SpaceIsSkipped(s: Text, at: nat, w: Text)
    requires at <= |s| && StartsWith(s, at, w) && Blank(w) && NoSpace(s, at + |w|)
    ensures SkipSpace(s, at) == at + |w|
    decreases |w|
  {
    if w != [] {
      SplitStart(s, at, [w[0]], w[1..]);
      assert [w[0]] + w[1..] == w;
      OneStart(s, at, w[0]);
      SpaceIsSkipped(s, at + 1, w[1..]);
    }
  }

  lemma {:induction false} DigitsAreDigits(s: Text, at: nat, digit: Unit -> bool)
    requires at <= |s|
    ensures AllDigits(s[at..SkipDigits(s, at, digit)], digit)
    decreases |s| - at
  {
    if at < |s| && digit(s[at]) {
      DigitsAreDigits(s, at + 1, digit);
      assert s[at..SkipDigits(s, at, digit)] == [s[at]] + s[at + 1..SkipDigits(s, at, digit)];
    }
  }

  predicate NoDigit(s: Text, at: nat, digit: Unit -> bool) {
    at >= |s| || !digit(s[at])
  }

  lemma {:induction false} DigitsAreSkipped(s: Text, at: nat, w: Text, digit: Unit -> bool)
    requires at <= |s| && StartsWith(s, at, w) && AllDigits(w, digit) && NoDigit(s, at + |w|, digit)
    ensures SkipDigits(s, at, digit) == at + |w|
    decreases |w|
  {
    if w != [] {
      SplitStart(s, at, [w[0]], w[1..]);
      assert [w[0]] + w[1..] == w;
      OneStart(s, at, w[0]);
      DigitsAreSkipped(s, at + 1, w[1..], digit);
    }
  }

  // ---- Strings ----

  lemma EscapeSound(s: Text, at: nat) returns (c: Character)
    requires at <= |s| && ScanEscape(s, at).Read?
    ensures GoodCharacter(c) && ScanEscape(s, at).text == [Meaning(c)]
    ensures SpellCharacter(c) == [BACKSLASH] + s[at..ScanEscape(s, at).next]
  {
    if EscapeValue(s[at]).Some? {
      assert s[at..at + 1] == [s[at]];
      c := Escape(s[at]);
    } else {
      assert s[at..at + 5] == [s[at]] + s[at + 1..at + 5];
      c := Unicode(s[at + 1..at + 5]);
    }
  }

  lemma CharacterSound(s: Text, at: nat) returns (c: Character, mid: nat)
    requires at < |s| && s[at] != QUOTE && ScanCharacters(s, at).Read?
    ensures GoodCharacter(c) && at < mid <= |s| && s[at..mid] == SpellCharacter(c)
    ensures ScanCharacters(s, at) == Prepend([Meaning(c)], ScanCharacters(s, mid))
  {
    if s[at] == BACKSLASH {
      c := EscapeSound(s, at + 1);
      mid := ScanEscape(s, at + 1).next;
      assert s[at..mid] == [s[at]] + s[at + 1..mid];
    } else {
      c, mid := Plain(s[at]), at + 1;
      assert s[at..mid] == [s[at]];
    }
  }

  lemma {:induction false} CharactersSound(s: Text, at: nat) returns (cs: seq<Character>)
    requires at <= |s| && ScanCharacters(s, at).Read?
    ensures GoodCharacters(cs) && DecodedText(cs) == ScanCharacters(s, at).text
    ensures s[at..ScanCharacters(s, at).next] == SpellCharacters(cs)
    decreases |s| - at
  {
    var next := ScanCharacters(s, at).next;
    if s[at] == QUOTE {
      assert s[at..at + 1] == [s[at]];
      cs := [];
    } else {
      var c, mid := CharacterSound(s, at);
      hide GoodCharacter, SpellCharacter, Meaning;
      var rest := CharactersSound(s, mid);
      cs := [c] + rest;
      assert cs[1..] == rest;
      Join(s, at, mid, next);
    }
  }

  lemma EscapeComplete(s: Text, at: nat, c: Character)
    requires at <= |s| && GoodCharacter(c) && !c.Plain? && StartsWith(s, at, SpellCharacter(c)[1..])
    ensures ScanEscape(s, at) == Read(at + |SpellCharacter(c)| - 1, [Meaning(c)])
  {
    match c {
      case Escape(letter) =>
        assert SpellCharacter(c)[1..] == [letter];
        OneStart(s, at, letter);
      case Unicode(hex) =>
        assert SpellCharacter(c)[1..] == [LOWER_U] + hex;
        SplitStart(s, at, [LOWER_U], hex);
        OneStart(s, at, LOWER_U);
    }
  }

  lemma CharacterComplete(s: Text, at: nat, c: Character)
    requires at <= |s| && GoodCharacter(c) && StartsWith(s, at, SpellCharacter(c))
    ensures ScanCharacters(s, at) == Prepend([Meaning(c)], ScanCharacters(s, at + |SpellCharacter(c)|))
  {
    var w := SpellCharacter(c);
    assert w == [w[0]] + w[1..];
    SplitStart(s, at, [w[0]], w[1..]);
    OneStart(s, at, w[0]);
    if !c.Plain? {
      EscapeComplete(s, at + 1, c);
    }
  }

  lemma {:induction false} CharactersComplete(s: Text, at: nat, cs: seq<Character>)
    requires at <= |s| && GoodCharacters(cs) && StartsWith(s, at, SpellCharacters(cs))
    ensures ScanCharacters(s, at) == Read(at + |SpellCharacters(cs)|, DecodedText(cs))
    decreases |cs|
  {
    hide GoodCharacter, SpellCharacter, Meaning;
    if cs == [] {
      OneStart(s, at, QUOTE);
    } else {
      var w := SpellCharacter(cs[0]);
      SplitStart(s, at, w, SpellCharacters(cs[1..]));
      CharacterComplete(s, at, cs[0]);
      CharactersComplete(s, at + |w|, cs[1..]);
    }
  }

  lemma StringSound(s: Text, at: nat) returns (cs: seq<Character>)
    requires at <= |s| && ScanString(s, at).Read?
    ensures GoodCharacters(cs) && DecodedText(cs) == ScanString(s, at).text
    ensures s[at..ScanString(s, at).next] == SpellString(cs)
  {
    cs := CharactersSound(s, at + 1);
    assert s[at..ScanString(s, at).next] == [s[at]] + s[at + 1..ScanString(s, at).next];
  }

  lemma StringComplete(s: Text, at: nat, cs: seq<Character>)
    requires at <= |s| && GoodCharacters(cs) && StartsWith(s, at, SpellString(cs))
    ensures ScanString(s, at) == Read(at + |SpellString(cs)|, DecodedText(cs))
  {
    SplitStart(s, at, [QUOTE], SpellCharacters(cs));
    OneStart(s, at, QUOTE);
    CharactersComplete(s, at + 1, cs);
  }

  // ---- Numbers ----

  lemma WholeSound(s: Text, at: nat, digit: Unit -> bool)
    requires at <= |s| && ScanWhole(s, at, digit).To?
    ensures GoodWhole(s[at..ScanWhole(s, at, digit).next], digit)
  {
    var next := ScanWhole(s, at, digit).next;
    if Starts(s, at, ZERO) {
      assert s[at..next] == [ZERO];
    } else {
      DigitsAreDigits(s, at + 1, digit);
      assert s[at..next][1..] == s[at + 1..next];
    }
  }

  lemma FractionSound(s: Text, at: nat, digit: Unit -> bool) returns (fraction: Option<Text>)
    requires at <= |s| && ScanFraction(s, at, digit).To?
    ensures fraction.Some? ==> fraction.value != [] && AllDigits(fraction.value, digit)
    ensures s[at..ScanFraction(s, at, digit).next] == SpellFraction(fraction)
  {
    var next := ScanFraction(s, at, digit).next;
    if Starts(s, at, DOT) {
      DigitsAreDigits(s, at + 1, digit);
      assert s[at..next] == [DOT] + s[at + 1..next];
      fraction := Some(s[at + 1..next]);
    } else {
      fraction := None;
    }
  }

  lemma ExponentSound(s: Text, at: nat, digit: Unit -> bool) returns (exponent: Option<Exponent>)
    requires at <= |s| && ScanExponent(s, at, digit).To?
    ensures exponent.Some? ==> GoodExponent(exponent.value, digit)
    ensures s[at..ScanExponent(s, at, digit).next] == SpellExponent(exponent)
  {
    var next := ScanExponent(s, at, digit).next;
    if Starts(s, at, LOWER_E) || Starts(s, at, UPPER_E) {
      var start := if Starts(s, at + 1, PLUS) || Starts(s, at + 1, MINUS) then at + 2 else at + 1;
      DigitsAreDigits(s, start, digit);
      var e := Exponent(s[at], s[at + 1..start], s[start..next]);
      assert s[at..next] == [s[at]] + (s[at + 1..start] + s[start..next]);
      assert e.sign == [] || e.sign == [s[at + 1]];
      exponent := Some(e);
    } else {
      exponent := None;
    }
  }

  lemma NumberSound(s: Text, at: nat, digit: Unit -> bool) returns (n: Numeral)
    requires at <= |s| && ScanNumber(s, at, digit).To?
    ensures GoodNumeral(n, digit) && s[at..ScanNumber(s, at, digit).next] == SpellNumeral(n)
  {
    hide ScanWhole, ScanFraction, ScanExponent, GoodWhole, GoodExponent;
    var next := ScanNumber(s, at, digit).next;
    var start := if Starts(s, at, MINUS) then at + 1 else at;
    var mid := ScanWhole(s, start, digit).next;
    WholeSound(s, start, digit);
    var fraction := FractionSound(s, mid, digit);
    var end := ScanFraction(s, mid, digit).next;
    var exponent := ExponentSound(s, end, digit);
    n := Numeral(Starts(s, at, MINUS), s[start..mid], fraction, exponent);
    assert s[at..start] == if n.negative then [MINUS] else [];
    Join(s, at, start, next);
    Join(s, start, mid, next);
    Join(s, mid, end, next);
  }

  // What may follow a value: the end, space, or one of three structural characters.
  predicate Stops(s: Text, at: nat) {
    at >= |s| || IsSpace(s[at]) || s[at] == COMMA || s[at] == RIGHT_BRACKET || s[at] == RIGHT_BRACE
  }

  lemma WholeComplete(s: Text, at: nat, whole: Text, digit: Unit -> bool)
    requires at <= |s| && DigitClass(digit) && GoodWhole(whole, digit)
    requires StartsWith(s, at, whole) && NoDigit(s, at + |whole|, digit)
    ensures ScanWhole(s, at, digit) == To(at + |whole|)
  {
    SplitStart(s, at, [whole[0]], whole[1..]);
    assert [whole[0]] + whole[1..] == whole;
    OneStart(s, at, whole[0]);
    if whole != [ZERO] {
      DigitsAreSkipped(s, at + 1, whole[1..], digit);
    }
  }

  lemma FractionComplete(s: Text, at: nat, fraction: Option<Text>, digit: Unit -> bool)
    requires at <= |s| && StartsWith(s, at, SpellFraction(fraction))
             && NoDigit(s, at + |SpellFraction(fraction)|, digit)
    requires fraction.Some? ==> fraction.value != [] && AllDigits(fraction.value, digit)
    requires fraction.None? ==> !Starts(s, at, DOT)
    ensures ScanFraction(s, at, digit) == To(at + |SpellFraction(fraction)|)
  {
    if fraction.Some? {
      SplitStart(s, at, [DOT], fraction.value);
      OneStart(s, at, DOT);
      DigitsAreSkipped(s, at + 1, fraction.value, digit);
    }
  }

  lemma ExponentComplete(s: Text, at: nat, exponent: Option<Exponent>, digit: Unit -> bool)
    requires at <= |s| && DigitClass(digit)
    requires StartsWith(s, at, SpellExponent(exponent)) && NoDigit(s, at + |SpellExponent(exponent)|, digit)
    requires exponent.Some? ==> GoodExponent(exponent.value, digit)
    requires exponent.None? ==> !Starts(s, at, LOWER_E) && !Starts(s, at, UPPER_E)
    ensures ScanExponent(s, at, digit) == To(at + |SpellExponent(exponent)|)
  {
    if exponent.Some? {
      var e := exponent.value;
      SplitStart(s, at, [e.mark], e.sign + e.digits);
      OneStart(s, at, e.mark);
      SplitStart(s, at + 1, e.sign, e.digits);
      OneStart(s, at + 1, PLUS);
      OneStart(s, at + 1, MINUS);
      assert digit(e.digits[0]);
      var start := at + 1 + |e.sign|;
      SplitStart(s, start, [e.digits[0]], e.digits[1..]);
      assert [e.digits[0]] + e.digits[1..] == e.digits;
      OneStart(s, start, e.digits[0]);
      DigitsAreSkipped(s, start, e.digits, digit);
    }
  }

  lemma {:induction false} NumberComplete(s: Text, at: nat, n: Numeral, digit: Unit -> bool)
    requires at <= |s| && DigitClass(digit) && GoodNumeral(n, digit)
    requires StartsWith(s, at, SpellNumeral(n)) && Stops(s, at + |SpellNumeral(n)|)
    ensures ScanNumber(s, at, digit) == To(at + |SpellNumeral(n)|)
    ensures s[at] == MINUS || AsciiDigit(s[at])
  {
    hide ScanWhole, ScanFraction, ScanExponent, GoodExponent, GoodWhole, StartsWith, SpellExponent, Stops, DigitClass,
      SpellNumeral;
    var fraction := SpellFraction(n.fraction);
    NumeralSplits(s, at, n);
    var start := if n.negative then at + 1 else at;
    var mid := start + |n.whole|;
    FirstOfNumber(s, at, n.negative, n.whole, digit);
    FirstOfExponent(s, mid + |fraction|, n.exponent, digit);
    FirstOfFraction(s, mid, n.fraction, digit);
    WholeComplete(s, start, n.whole, digit);
    FractionComplete(s, mid, n.fraction, digit);
    ExponentComplete(s, mid + |fraction|, n.exponent, digit);
  }

  lemma NumeralSplits(s: Text, at: nat, n: Numeral)
    requires StartsWith(s, at, SpellNumeral(n))
    ensures var start := if n.negative then at + 1 else at;
            var mid := start + |n.whole|;
            var end := mid + |SpellFraction(n.fraction)|;
            && StartsWith(s, at, if n.negative then [MINUS] else []) && StartsWith(s, start, n.whole)
            && StartsWith(s, mid, SpellFraction(n.fraction)) && StartsWith(s, end, SpellExponent(n.exponent))
            && start <= mid <= end <= |s|
            && at + |SpellNumeral(n)| == end + |SpellExponent(n.exponent)|
  {
    hide StartsWith, SpellFraction, SpellExponent;
    var sign := if n.negative then [MINUS] else [];
    var fraction, exponent := SpellFraction(n.fraction), SpellExponent(n.exponent);
    SplitStart(s, at, sign, n.whole + (fraction + exponent));
    SplitStart(s, at + |sign|, n.whole, fraction + exponent);
    SplitStart(s, at + |sign| + |n.whole|, fraction, exponent);
  }

  lemma FirstOfNumber(s: Text, at: nat, negative: bool, whole: Text, digit: Unit -> bool)
    requires at <= |s| && GoodWhole(whole, digit)
    requires var sign := if negative then [MINUS] else []; StartsWith(s, at, sign) && StartsWith(s, at + |sign|, whole)
    ensures at < |s| && (Starts(s, at, MINUS) <==> negative) && (s[at] == MINUS || AsciiDigit(s[at]))
  {
    var start := if negative then at + 1 else at;
    OneStart(s, at, MINUS);
    SplitStart(s, start, [whole[0]], whole[1..]);
    assert [whole[0]] + whole[1..] == whole;
    OneStart(s, start, whole[0]);
  }

  lemma FirstOfExponent(s: Text, at: nat, exponent: Option<Exponent>, digit: Unit -> bool)
    requires at <= |s| && DigitClass(digit) && StartsWith(s, at, SpellExponent(exponent))
    requires Stops(s, at + |SpellExponent(exponent)|)
    requires exponent.Some? ==> GoodExponent(exponent.value, digit)
    ensures NoDigit(s, at, digit) && !Starts(s, at, DOT) && NoDigit(s, at + |SpellExponent(exponent)|, digit)
    ensures exponent.None? ==> !Starts(s, at, LOWER_E) && !Starts(s, at, UPPER_E)
  {
    if exponent.Some? {
      SplitStart(s, at, [exponent.value.mark], exponent.value.sign + exponent.value.digits);
      OneStart(s, at, exponent.value.mark);
    }
  }

  lemma FirstOfFraction(s: Text, at: nat, fraction: Option<Text>, digit: Unit -> bool)
    requires at <= |s| && DigitClass(digit) && StartsWith(s, at, SpellFraction(fraction))
    requires NoDigit(s, at + |SpellFraction(fraction)|, digit)
    ensures NoDigit(s, at, digit)
  {
    if fraction.Some? {
      SplitStart(s, at, [DOT], fraction.value);
      OneStart(s, at, DOT);
    }
  }

  // ---- What the scanner accepts is a JSON text ----

  lemma {:induction false} ValueSound(s: Text, at: nat, depth: nat, digit: Unit -> bool) returns (v: Value)
    requires at <= |s| && ScanValue(s, at, depth, digit).To?
    ensures GoodValue(v, digit) && s[at..ScanValue(s, at, depth, digit).next] == Spell(v)
    ensures depth + Nesting(v) <= MAXIMUM_DEPTH && DistinctKeys(v, digit)
    decreases |s| - at, 2
  {
    hide ScanArray, ScanObject, ScanString, ScanNumber, GoodNumeral, SpellNumeral, SpellString;
    if s[at] == LEFT_BRACE {
      v := ObjectSound(s, at, depth, digit);
    } else if s[at] == LEFT_BRACKET {
      v := ArraySound(s, at, depth, digit);
    } else if s[at] == QUOTE {
      var characters := StringSound(s, at);
      v := String(characters);
    } else if s[at] == TRUE[0] {
      v := Literal(TRUE);
    } else if s[at] == FALSE[0] {
      v := Literal(FALSE);
    } else if s[at] == NULL[0] {
      v := Literal(NULL);
    } else {
      var numeral := NumberSound(s, at, digit);
      v := Number(numeral);
    }
  }

  // The text from an opening character to where the step leads, split after the space that follows it.
  lemma OpeningSplits(s: Text, at: nat, u: Unit, next: nat)
    requires Starts(s, at, u) && SkipSpace(s, at + 1) <= next <= |s|
    ensures Blank(s[at + 1..SkipSpace(s, at + 1)])
    ensures s[at..next] == [u] + (s[at + 1..SkipSpace(s, at + 1)] + s[SkipSpace(s, at + 1)..next])
  {
    SpaceIsBlank(s, at + 1);
    Join(s, at, at + 1, next);
    Join(s, at + 1, SkipSpace(s, at + 1), next);
    assert s[at..at + 1] == [u];
  }

  lemma {:induction false} ArraySound(s: Text, at: nat, depth: nat, digit: Unit -> bool) returns (v: Value)
    requires depth <= MAXIMUM_DEPTH && Starts(s, at, LEFT_BRACKET) && ScanArray(s, at, depth, digit).To?
    ensures GoodValue(v, digit) && s[at..ScanArray(s, at, depth, digit).next] == Spell(v)
    ensures depth + Nesting(v) <= MAXIMUM_DEPTH && DistinctKeys(v, digit)
    decreases |s| - at, 1
  {
    hide ScanItems, SkipSpace, Blank;
    var first, next := SkipSpace(s, at + 1), ScanArray(s, at, depth, digit).next;
    OpeningSplits(s, at, LEFT_BRACKET, next);
    if Starts(s, first, RIGHT_BRACKET) {
      assert s[first..next] == [RIGHT_BRACKET];
      v := EmptyArray(s[at + 1..first]);
    } else {
      var items := ItemsSound(s, first, depth, digit);
      v := Array(s[at + 1..first], items);
    }
  }

  lemma {:induction false} ItemsSound(s: Text, at: nat, depth: nat, digit: Unit -> bool) returns (items: Items)
    requires at <= |s| && ScanItems(s, at, depth, digit).To?
    ensures GoodItems(items, digit) && s[at..ScanItems(s, at, depth, digit).next] == SpellItems(items)
    ensures depth + 1 + ItemsNesting(items) <= MAXIMUM_DEPTH && DistinctInItems(items, digit)
    decreases |s| - at, 3
  {
    hide ScanValue, SkipSpace, Blank, Nesting, Spell, GoodValue, DistinctKeys;
    var next := ScanItems(s, at, depth, digit).next;
    var value := ValueSound(s, at, depth + 1, digit);
    var mid := ScanValue(s, at, depth + 1, digit).next;
    var end := SkipSpace(s, mid);
    SpaceIsBlank(s, mid);
    if Starts(s, end, RIGHT_BRACKET) {
      items := LastItem(value, s[mid..end]);
      assert s[end..next] == [RIGHT_BRACKET];
    } else {
      var rest := ItemsSound(s, SkipSpace(s, end + 1), depth, digit);
      OpeningSplits(s, end, COMMA, next);
      items := MoreItems(value, s[mid..end], s[end + 1..SkipSpace(s, end + 1)], rest);
    }
    Join(s, at, mid, next);
    Join(s, mid, end, next);
  }

  lemma {:induction false} ObjectSound(s: Text, at: nat, depth: nat, digit: Unit -> bool) returns (v: Value)
    requires depth <= MAXIMUM_DEPTH && Starts(s, at, LEFT_BRACE) && ScanObject(s, at, depth, digit).To?
    ensures GoodValue(v, digit) && s[at..ScanObject(s, at, depth, digit).next] == Spell(v)
    ensures depth + Nesting(v) <= MAXIMUM_DEPTH && DistinctKeys(v, digit)
    decreases |s| - at, 1
  {
    hide ScanMembers, SkipSpace, Blank;
    var first, next := SkipSpace(s, at + 1), ScanObject(s, at, depth, digit).next;
    OpeningSplits(s, at, LEFT_BRACE, next);
    if Starts(s, first, RIGHT_BRACE) {
      assert s[first..next] == [RIGHT_BRACE];
      v := EmptyObject(s[at + 1..first]);
    } else {
      var members := MembersSound(s, first, depth, {}, digit);
      v := Object(s[at + 1..first], members);
    }
  }

  lemma {:induction false} PairSound(s: Text, at: nat, depth: nat, keys: set<Text>, digit: Unit -> bool)
    returns (key: seq<Character>, afterKey: Text, beforeValue: Text, value: Value)
    requires at <= |s| && ScanPair(s, at, depth, keys, digit).To?
    ensures GoodCharacters(key) && DecodedText(key) !in keys && DecodedText(key) == ScanString(s, at).text
    ensures Blank(afterKey) && Blank(beforeValue) && GoodValue(value, digit)
    ensures s[at..ScanPair(s, at, depth, keys, digit).next] == SpellPair(key, afterKey, beforeValue, Spell(value))
    ensures depth + 1 + Nesting(value) <= MAXIMUM_DEPTH && DistinctKeys(value, digit)
    decreases |s| - at, 3
  {
    hide ScanValue, ScanString, SkipSpace, Blank, GoodCharacters, DecodedText, SpellString;
    var next := ScanPair(s, at, depth, keys, digit).next;
    var mid := ScanString(s, at).next;
    var colon := SkipSpace(s, mid);
    key := StringSound(s, at);
    SpaceIsBlank(s, mid);
    value := ValueSound(s, SkipSpace(s, colon + 1), depth + 1, digit);
    OpeningSplits(s, colon, COLON, next);
    afterKey, beforeValue := s[mid..colon], s[colon + 1..SkipSpace(s, colon + 1)];
    Join(s, at, mid, next);
    Join(s, mid, colon, next);
  }

  // No key of the members is in the set, none is repeated, and no object inside repeats one.
  predicate Fresh(members: Members, keys: set<Text>, digit: Unit -> bool)
    requires GoodMembers(members, digit)
  {
    && (forall i :: 0 <= i < |Keys(members, digit)| ==> Keys(members, digit)[i] !in keys)
    && AllDifferent(Keys(members, digit))
    && DistinctInMembers(members, digit)
  }

  lemma {:induction false} FreshStep(members: Members, keys: set<Text>, digit: Unit -> bool)
    requires GoodMembers(members, digit)
    ensures Fresh(members, keys, digit) <==>
            && DecodedText(members.key) !in keys
            && DistinctKeys(members.value, digit)
            && (members.MoreMembers? ==> Fresh(members.rest, keys + {DecodedText(members.key)}, digit))
  {
    hide DecodedText, DistinctKeys;
    var all := Keys(members, digit);
    assert all[0] == DecodedText(members.key);
    if members.MoreMembers? {
      var more := Keys(members.rest, digit);
      assert all == [DecodedText(members.key)] + more;
      assert forall i :: 0 <= i < |more| ==> all[i + 1] == more[i];
      if Fresh(members.rest, keys + {DecodedText(members.key)}, digit) && DecodedText(members.key) !in keys {
        forall i, j | 0 <= i < j < |all| ensures all[i] != all[j] {
          assert all[j] == more[j - 1];
          if i > 0 {
            assert all[i] == more[i - 1];
          }
        }
      }
    }
  }

  lemma {:induction false} MembersSound(s: Text, at: nat, depth: nat, keys: set<Text>, digit: Unit -> bool)
    returns (members: Members)
    requires at <= |s| && ScanMembers(s, at, depth, keys, digit).To?
    ensures GoodMembers(members, digit) && s[at..ScanMembers(s, at, depth, keys, digit).next] == SpellMembers(members)
    ensures depth + 1 + MembersNesting(members) <= MAXIMUM_DEPTH && Fresh(members, keys, digit)
    decreases |s| - at, 4
  {
    hide ScanPair, ScanString, SkipSpace, Blank, GoodCharacters, DecodedText, SpellPair, Fresh;
    var next := ScanMembers(s, at, depth, keys, digit).next;
    var key, afterKey, beforeValue, value := PairSound(s, at, depth, keys, digit);
    var mid := ScanPair(s, at, depth, keys, digit).next;
    var end := SkipSpace(s, mid);
    SpaceIsBlank(s, mid);
    if Starts(s, end, RIGHT_BRACE) {
      members := LastMember(key, afterKey, beforeValue, value, s[mid..end]);
      assert s[end..next] == [RIGHT_BRACE];
    } else {
      var start := SkipSpace(s, end + 1);
      var rest := MembersSound(s, start, depth, keys + {ScanString(s, at).text}, digit);
      OpeningSplits(s, end, COMMA, next);
      members := MoreMembers(key, afterKey, beforeValue, value, s[mid..end], s[end + 1..start], rest);
    }
    FreshStep(members, keys, digit);
    Join(s, at, mid, next);
    Join(s, mid, end, next);
  }

  // ---- Every JSON text that is not too deep is read to its end, unless an object repeats a key ----

  // The character a value starts with is no space and no closing bracket.
  lemma FirstOfValue(s: Text, at: nat, v: Value, digit: Unit -> bool)
    requires at <= |s| && GoodValue(v, digit) && StartsWith(s, at, Spell(v))
    ensures NoSpace(s, at) && !Starts(s, at, RIGHT_BRACKET) && at < |s|
  {
    var first := FirstUnit(v, digit);
    SplitStart(s, at, [first], Spell(v)[1..]);
    assert [first] + Spell(v)[1..] == Spell(v);
    OneStart(s, at, first);
  }

  function FirstUnit(v: Value, digit: Unit -> bool): (first: Unit)
    requires GoodValue(v, digit)
    ensures Spell(v) != [] && Spell(v)[0] == first
    ensures !IsSpace(first) && first != RIGHT_BRACKET
  {
    match v
    case Literal(word) => word[0]
    case Number(n) => if n.negative then MINUS else n.whole[0]
    case String(_) => QUOTE
    case EmptyArray(_) => LEFT_BRACKET
    case Array(_, _) => LEFT_BRACKET
    case EmptyObject(_) => LEFT_BRACE
    case Object(_, _) => LEFT_BRACE
  }

  // Space and then a structural character: the space is skipped, and a value may end before it.
  lemma SpaceThen(s: Text, at: nat, w: Text, u: Unit, tail: Text)
    requires at <= |s| && Blank(w) && StartsWith(s, at, w + ([u] + tail)) && !IsSpace(u)
    ensures SkipSpace(s, at) == at + |w| && Starts(s, at + |w|, u) && StartsWith(s, at + |w| + 1, tail)
    ensures u == COMMA || u == RIGHT_BRACKET || u == RIGHT_BRACE ==> Stops(s, at)
  {
    SplitStart(s, at, w, [u] + tail);
    SplitStart(s, at + |w|, [u], tail);
    OneStart(s, at + |w|, u);
    SpaceIsSkipped(s, at, w);
    if w != [] {
      SplitStart(s, at, [w[0]], w[1..]);
      assert [w[0]] + w[1..] == w;
      OneStart(s, at, w[0]);
    }
  }

  lemma SpaceAndEnd(s: Text, at: nat, w: Text, u: Unit)
    requires at <= |s| && Blank(w) && StartsWith(s, at, w + [u]) && !IsSpace(u)
    ensures SkipSpace(s, at) == at + |w| && Starts(s, at + |w|, u)
    ensures u == COMMA || u == RIGHT_BRACKET || u == RIGHT_BRACE ==> Stops(s, at)
  {
    assert [u] + [] == [u];
    SpaceThen(s, at, w, u, []);
  }

  function Outcome(distinct: bool, next: nat): Step {
    if distinct then To(next) else Bad(DuplicateJsonKey)
  }

  lemma {:induction false} ValueComplete(s: Text, at: nat, depth: nat, v: Value, digit: Unit -> bool)
    requires at <= |s| && DigitClass(digit) && GoodValue(v, digit) && StartsWith(s, at, Spell(v))
    requires depth + Nesting(v) <= MAXIMUM_DEPTH && Stops(s, at + |Spell(v)|)
    ensures ScanValue(s, at, depth, digit) == Outcome(DistinctKeys(v, digit), at + |Spell(v)|)
    decreases v, 0
  {
    hide ScanArray, ScanObject, ScanString, ScanNumber, GoodNumeral, SpellNumeral, SpellString, StartsWith, Keys,
         SpellItems, SpellMembers, GoodItems, GoodMembers, DistinctInItems, DistinctInMembers, ItemsNesting,
         MembersNesting, Stops;
    FirstOfValue(s, at, v, digit);
    match v {
      case Literal(word) =>
        LiteralComplete(s, at, depth, word, digit);
      case Number(n) =>
        NumberComplete(s, at, n, digit);
        assert s[at] != MINUS ==> digit(s[at]);
      case String(characters) =>
        StringComplete(s, at, characters);
        StartsWithQuote(s, at, characters);
      case EmptyArray(space) =>
        EmptyArrayComplete(s, at, depth, space, digit);
      case Array(space, items) =>
        ArrayComplete(s, at, depth, space, items, digit);
      case EmptyObject(space) =>
        EmptyObjectComplete(s, at, depth, space, digit);
      case Object(space, members) =>
        ObjectComplete(s, at, depth, space, members, digit);
    }
  }

  lemma LiteralComplete(s: Text, at: nat, depth: nat, word: Text, digit: Unit -> bool)
    requires at <= |s| && depth <= MAXIMUM_DEPTH && (word == TRUE || word == FALSE || word == NULL)
    requires StartsWith(s, at, word)
    ensures ScanValue(s, at, depth, digit) == To(at + |word|)
  {
    SplitStart(s, at, [word[0]], word[1..]);
    assert [word[0]] + word[1..] == word;
    OneStart(s, at, word[0]);
  }

  lemma StartsWithQuote(s: Text, at: nat, characters: seq<Character>)
    requires StartsWith(s, at, SpellString(characters))
    ensures Starts(s, at, QUOTE)
  {
    SplitStart(s, at, [QUOTE], SpellCharacters(characters));
    OneStart(s, at, QUOTE);
  }

  lemma OpeningComplete(s: Text, at: nat, u: Unit, space: Text, tail: Text)
    requires StartsWith(s, at, [u] + (space + tail))
    ensures Starts(s, at, u) && StartsWith(s, at + 1, space) && StartsWith(s, at + 1 + |space|, tail)
  {
    SplitStart(s, at, [u], space + tail);
    OneStart(s, at, u);
    SplitStart(s, at + 1, space, tail);
  }

  lemma {:induction false} ArrayComplete(s: Text, at: nat, depth: nat, space: Text, items: Items, digit: Unit -> bool)
    requires DigitClass(digit) && Blank(space) && GoodItems(items, digit)
    requires StartsWith(s, at, [LEFT_BRACKET] + (space + SpellItems(items)))
    requires depth + 1 + ItemsNesting(items) <= MAXIMUM_DEPTH
    ensures Starts(s, at, LEFT_BRACKET)
    ensures ScanArray(s, at, depth, digit) ==
            Outcome(DistinctInItems(items, digit), at + 1 + |space| + |SpellItems(items)|)
    decreases items, 1
  {
    hide ScanItems, SpellItems, GoodItems, DistinctInItems, SkipSpace, Blank, DigitClass, ItemsNesting;
    OpeningComplete(s, at, LEFT_BRACKET, space, SpellItems(items));
    FirstOfItems(s, at + 1 + |space|, items, digit);
    SpaceIsSkipped(s, at + 1, space);
    ItemsComplete(s, at + 1 + |space|, depth, items, digit);
  }

  lemma {:induction false} ObjectComplete(s: Text, at: nat, depth: nat, space: Text, members: Members,
                                          digit: Unit -> bool)
    requires DigitClass(digit) && Blank(space) && GoodMembers(members, digit)
    requires StartsWith(s, at, [LEFT_BRACE] + (space + SpellMembers(members)))
    requires depth + 1 + MembersNesting(members) <= MAXIMUM_DEPTH
    ensures Starts(s, at, LEFT_BRACE)
    ensures ScanObject(s, at, depth, digit) ==
            Outcome(Fresh(members, {}, digit), at + 1 + |space| + |SpellMembers(members)|)
    decreases members, 1
  {
    hide ScanMembers, SpellMembers, GoodMembers, Fresh, SkipSpace, Blank, DigitClass, MembersNesting;
    OpeningComplete(s, at, LEFT_BRACE, space, SpellMembers(members));
    FirstOfMembers(s, at + 1 + |space|, members, digit);
    SpaceIsSkipped(s, at + 1, space);
    MembersComplete(s, at + 1 + |space|, depth, {}, members, digit);
  }

  lemma EmptyArrayComplete(s: Text, at: nat, depth: nat, space: Text, digit: Unit -> bool)
    requires Blank(space) && StartsWith(s, at, [LEFT_BRACKET] + (space + [RIGHT_BRACKET]))
    ensures Starts(s, at, LEFT_BRACKET) && ScanArray(s, at, depth, digit) == To(at + |space| + 2)
  {
    OpeningComplete(s, at, LEFT_BRACKET, space, [RIGHT_BRACKET]);
    SplitStart(s, at + 1, space, [RIGHT_BRACKET]);
    SpaceAndEnd(s, at + 1, space, RIGHT_BRACKET);
  }

  lemma EmptyObjectComplete(s: Text, at: nat, depth: nat, space: Text, digit: Unit -> bool)
    requires Blank(space) && StartsWith(s, at, [LEFT_BRACE] + (space + [RIGHT_BRACE]))
    ensures Starts(s, at, LEFT_BRACE) && ScanObject(s, at, depth, digit) == To(at + |space| + 2)
  {
    OpeningComplete(s, at, LEFT_BRACE, space, [RIGHT_BRACE]);
    SplitStart(s, at + 1, space, [RIGHT_BRACE]);
    SpaceAndEnd(s, at + 1, space, RIGHT_BRACE);
  }

  lemma FirstOfItems(s: Text, at: nat, items: Items, digit: Unit -> bool)
    requires at <= |s| && GoodItems(items, digit) && StartsWith(s, at, SpellItems(items))
    ensures NoSpace(s, at) && !Starts(s, at, RIGHT_BRACKET) && StartsWith(s, at, Spell(items.value))
  {
    SplitStart(s, at, Spell(items.value), SpellItems(items)[|Spell(items.value)|..]);
    assert Spell(items.value) + SpellItems(items)[|Spell(items.value)|..] == SpellItems(items);
    FirstOfValue(s, at, items.value, digit);
  }

  lemma {:induction false} ItemsComplete(s: Text, at: nat, depth: nat, items: Items, digit: Unit -> bool)
    requires at <= |s| && DigitClass(digit) && GoodItems(items, digit) && StartsWith(s, at, SpellItems(items))
    requires depth + 1 + ItemsNesting(items) <= MAXIMUM_DEPTH
    ensures ScanItems(s, at, depth, digit) == Outcome(DistinctInItems(items, digit), at + |SpellItems(items)|)
    decreases items, 0
  {
    hide ScanValue, SkipSpace, Blank, DigitClass, Stops, StartsWith, Nesting, Spell, GoodValue, DistinctKeys;
    var mid := at + |Spell(items.value)|;
    match items {
      case LastItem(value, after) =>
        SplitStart(s, at, Spell(value), after + [RIGHT_BRACKET]);
        SpaceAndEnd(s, mid, after, RIGHT_BRACKET);
        ValueComplete(s, at, depth + 1, value, digit);
      case MoreItems(value, after, before, rest) =>
        var tail := before + SpellItems(rest);
        SplitStart(s, at, Spell(value), after + ([COMMA] + tail));
        SpaceThen(s, mid, after, COMMA, tail);
        ValueComplete(s, at, depth + 1, value, digit);
        var start := mid + |after| + 1;
        SplitStart(s, start, before, SpellItems(rest));
        FirstOfItems(s, start + |before|, rest, digit);
        SpaceIsSkipped(s, start, before);
        ItemsComplete(s, start + |before|, depth, rest, digit);
    }
  }

  lemma FirstOfMembers(s: Text, at: nat, members: Members, digit: Unit -> bool)
    requires at <= |s| && GoodMembers(members, digit) && StartsWith(s, at, SpellMembers(members))
    ensures NoSpace(s, at) && !Starts(s, at, RIGHT_BRACE)
  {
    SplitStart(s, at, [QUOTE], SpellMembers(members)[1..]);
    assert [QUOTE] + SpellMembers(members)[1..] == SpellMembers(members);
    OneStart(s, at, QUOTE);
  }

  lemma {:induction false} PairComplete(s: Text, at: nat, depth: nat, keys: set<Text>, key: seq<Character>,
                                        afterKey: Text, beforeValue: Text, value: Value, digit: Unit -> bool)
    requires at <= |s| && DigitClass(digit)
    requires GoodCharacters(key) && Blank(afterKey) && Blank(beforeValue) && GoodValue(value, digit)
    requires StartsWith(s, at, SpellPair(key, afterKey, beforeValue, Spell(value)))
    requires Stops(s, at + |SpellPair(key, afterKey, beforeValue, Spell(value))|)
    requires depth + 1 + Nesting(value) <= MAXIMUM_DEPTH
    ensures ScanPair(s, at, depth, keys, digit) ==
            Outcome(DecodedText(key) !in keys && DistinctKeys(value, digit),
                    at + |SpellPair(key, afterKey, beforeValue, Spell(value))|)
    ensures ScanString(s, at).Read? && ScanString(s, at).text == DecodedText(key)
    decreases value, 1
  {
    hide ScanValue, ScanString, SkipSpace, Blank, GoodCharacters, DecodedText, SpellString, DigitClass, Stops,
      StartsWith, Nesting, Spell, GoodValue, DistinctKeys;
    var tail := beforeValue + Spell(value);
    SplitStart(s, at, SpellString(key), afterKey + ([COLON] + tail));
    StringComplete(s, at, key);
    var mid := at + |SpellString(key)|;
    SpaceThen(s, mid, afterKey, COLON, tail);
    var start := mid + |afterKey| + 1;
    SplitStart(s, start, beforeValue, Spell(value));
    FirstOfValue(s, start + |beforeValue|, value, digit);
    SpaceIsSkipped(s, start, beforeValue);
    ValueComplete(s, start + |beforeValue|, depth + 1, value, digit);
  }

  lemma {:induction false} MembersComplete(s: Text, at: nat, depth: nat, keys: set<Text>, members: Members,
                                           digit: Unit -> bool)
    requires at <= |s| && DigitClass(digit) && GoodMembers(members, digit) && StartsWith(s, at, SpellMembers(members))
    requires depth + 1 + MembersNesting(members) <= MAXIMUM_DEPTH
    ensures ScanMembers(s, at, depth, keys, digit) == Outcome(Fresh(members, keys, digit), at + |SpellMembers(members)|)
    decreases members, 0
  {
    hide ScanPair, ScanString, SkipSpace, Blank, GoodCharacters, DecodedText, SpellPair, Fresh, DigitClass, Stops,
      StartsWith, Nesting, Spell, GoodValue, DistinctKeys;
    FreshStep(members, keys, digit);
    match members {
      case LastMember(key, afterKey, beforeValue, value, after) =>
        var pair := SpellPair(key, afterKey, beforeValue, Spell(value));
        SplitStart(s, at, pair, after + [RIGHT_BRACE]);
        SpaceAndEnd(s, at + |pair|, after, RIGHT_BRACE);
        PairComplete(s, at, depth, keys, key, afterKey, beforeValue, value, digit);
      case MoreMembers(key, afterKey, beforeValue, value, after, before, rest) =>
        var pair := SpellPair(key, afterKey, beforeValue, Spell(value));
        var tail := before + SpellMembers(rest);
        SplitStart(s, at, pair, after + ([COMMA] + tail));
        SpaceThen(s, at + |pair|, after, COMMA, tail);
        PairComplete(s, at, depth, keys, key, afterKey, beforeValue, value, digit);
        var start := at + |pair| + |after| + 1;
        SplitStart(s, start, before, SpellMembers(rest));
        FirstOfMembers(s, start + |before|, rest, digit);
        SpaceIsSkipped(s, start, before);
        MembersComplete(s, start + |before|, depth, keys + {DecodedText(key)}, rest, digit);
    }
  }

  // ---- What is read to its end is not too deep ----

  lemma {:induction false} ValueFits(s: Text, at: nat, depth: nat, v: Value, digit: Unit -> bool)
    requires at <= |s| && DigitClass(digit) && GoodValue(v, digit) && StartsWith(s, at, Spell(v))
    requires Stops(s, at + |Spell(v)|)
    ensures ScanValue(s, at, depth, digit).To? ==> depth + Nesting(v) <= MAXIMUM_DEPTH
    decreases v, 0
  {
    hide ScanArray, ScanObject, ScanString, ScanNumber, GoodNumeral, SpellNumeral, SpellString, StartsWith,
         SpellItems, SpellMembers, GoodItems, GoodMembers, ItemsNesting, MembersNesting, Stops;
    FirstOfValue(s, at, v, digit);
    match v {
      case Array(space, items) => ArrayFits(s, at, depth, space, items, digit);
      case Object(space, members) => ObjectFits(s, at, depth, space, members, digit);
      case _ =>
    }
  }

  lemma {:induction false} ArrayFits(s: Text, at: nat, depth: nat, space: Text, items: Items, digit: Unit -> bool)
    requires DigitClass(digit) && Blank(space) && GoodItems(items, digit)
    requires StartsWith(s, at, [LEFT_BRACKET] + (space + SpellItems(items)))
    ensures Starts(s, at, LEFT_BRACKET)
    ensures ScanArray(s, at, depth, digit).To? ==> depth + 1 + ItemsNesting(items) <= MAXIMUM_DEPTH
    decreases items, 1
  {
    hide ScanItems, SpellItems, GoodItems, SkipSpace, Blank, DigitClass, ItemsNesting;
    OpeningComplete(s, at, LEFT_BRACKET, space, SpellItems(items));
    FirstOfItems(s, at + 1 + |space|, items, digit);
    SpaceIsSkipped(s, at + 1, space);
    ItemsFit(s, at + 1 + |space|, depth, items, digit);
  }

  lemma {:induction false} ObjectFits(s: Text, at: nat, depth: nat, space: Text, members: Members,
                                      digit: Unit -> bool)
    requires DigitClass(digit) && Blank(space) && GoodMembers(members, digit)
    requires StartsWith(s, at, [LEFT_BRACE] + (space + SpellMembers(members)))
    ensures Starts(s, at, LEFT_BRACE)
    ensures ScanObject(s, at, depth, digit).To? ==> depth + 1 + MembersNesting(members) <= MAXIMUM_DEPTH
    decreases members, 1
  {
    hide ScanMembers, SpellMembers, GoodMembers, SkipSpace, Blank, DigitClass, MembersNesting;
    OpeningComplete(s, at, LEFT_BRACE, space, SpellMembers(members));
    FirstOfMembers(s, at + 1 + |space|, members, digit);
    SpaceIsSkipped(s, at + 1, space);
    MembersFit(s, at + 1 + |space|, depth, {}, members, digit);
  }

  lemma {:induction false} ItemsFit(s: Text, at: nat, depth: nat, items: Items, digit: Unit -> bool)
    requires at <= |s| && DigitClass(digit) && GoodItems(items, digit) && StartsWith(s, at, SpellItems(items))
    ensures ScanItems(s, at, depth, digit).To? ==> depth + 1 + ItemsNesting(items) <= MAXIMUM_DEPTH
    decreases items, 0
  {
    hide ScanValue, SkipSpace, Blank, DigitClass, Stops, StartsWith, Nesting, Spell, GoodValue, DistinctKeys;
    var mid := at + |Spell(items.value)|;
    match items {
      case LastItem(value, after) =>
        SplitStart(s, at, Spell(value), after + [RIGHT_BRACKET]);
        SpaceAndEnd(s, mid, after, RIGHT_BRACKET);
        ValueFits(s, at, depth + 1, value, digit);
      case MoreItems(value, after, before, rest) =>
        var tail := before + SpellItems(rest);
        SplitStart(s, at, Spell(value), after + ([COMMA] + tail));
        SpaceThen(s, mid, after, COMMA, tail);
        ValueFits(s, at, depth + 1, value, digit);
        if ScanValue(s, at, depth + 1, digit).To? {
          ValueComplete(s, at, depth + 1, value, digit);
          var start := mid + |after| + 1;
          SplitStart(s, start, before, SpellItems(rest));
          FirstOfItems(s, start + |before|, rest, digit);
          SpaceIsSkipped(s, start, before);
          ItemsFit(s, start + |before|, depth, rest, digit);
        }
    }
  }

  lemma {:induction false} PairFits(s: Text, at: nat, depth: nat, keys: set<Text>, key: seq<Character>,
                                    afterKey: Text, beforeValue: Text, value: Value, digit: Unit -> bool)
    requires at <= |s| && DigitClass(digit)
    requires GoodCharacters(key) && Blank(afterKey) && Blank(beforeValue) && GoodValue(value, digit)
    requires StartsWith(s, at, SpellPair(key, afterKey, beforeValue, Spell(value)))
    requires Stops(s, at + |SpellPair(key, afterKey, beforeValue, Spell(value))|)
    ensures ScanPair(s, at, depth, keys, digit).To? ==> depth + 1 + Nesting(value) <= MAXIMUM_DEPTH
    decreases value, 1
  {
    hide ScanValue, ScanString, SkipSpace, Blank, GoodCharacters, DecodedText, SpellString, DigitClass, Stops,
         StartsWith, Nesting, Spell, GoodValue;
    var tail := beforeValue + Spell(value);
    SplitStart(s, at, SpellString(key), afterKey + ([COLON] + tail));
    StringComplete(s, at, key);
    var mid := at + |SpellString(key)|;
    SpaceThen(s, mid, afterKey, COLON, tail);
    var start := mid + |afterKey| + 1;
    SplitStart(s, start, beforeValue, Spell(value));
    FirstOfValue(s, start + |beforeValue|, value, digit);
    SpaceIsSkipped(s, start, beforeValue);
    ValueFits(s, start + |beforeValue|, depth + 1, value, digit);
  }

  lemma {:induction false} MembersFit(s: Text, at: nat, depth: nat, keys: set<Text>, members: Members,
                                      digit: Unit -> bool)
    requires at <= |s| && DigitClass(digit) && GoodMembers(members, digit) && StartsWith(s, at, SpellMembers(members))
    ensures ScanMembers(s, at, depth, keys, digit).To? ==> depth + 1 + MembersNesting(members) <= MAXIMUM_DEPTH
    decreases members, 0
  {
    hide ScanPair, ScanString, SkipSpace, Blank, GoodCharacters, DecodedText, SpellPair, DigitClass, Stops,
         StartsWith, Nesting, Spell, GoodValue, DistinctKeys;
    match members {
      case LastMember(key, afterKey, beforeValue, value, after) =>
        var pair := SpellPair(key, afterKey, beforeValue, Spell(value));
        SplitStart(s, at, pair, after + [RIGHT_BRACE]);
        SpaceAndEnd(s, at + |pair|, after, RIGHT_BRACE);
        PairFits(s, at, depth, keys, key, afterKey, beforeValue, value, digit);
      case MoreMembers(key, afterKey, beforeValue, value, after, before, rest) =>
        var pair := SpellPair(key, afterKey, beforeValue, Spell(value));
        var tail := before + SpellMembers(rest);
        SplitStart(s, at, pair, after + ([COMMA] + tail));
        SpaceThen(s, at + |pair|, after, COMMA, tail);
        PairFits(s, at, depth, keys, key, afterKey, beforeValue, value, digit);
        if ScanPair(s, at, depth, keys, digit).To? {
          PairComplete(s, at, depth, keys, key, afterKey, beforeValue, value, digit);
          var start := at + |pair| + |after| + 1;
          SplitStart(s, start, before, SpellMembers(rest));
          FirstOfMembers(s, start + |before|, rest, digit);
          SpaceIsSkipped(s, start, before);
          MembersFit(s, start + |before|, depth, keys + {DecodedText(key)}, rest, digit);
        }
    }
  }

  // ---- Whole texts ----

  lemma TextSound(input: Text, digit: Unit -> bool) returns (v: Value, before: Text, after: Text)
    requires ScanText(input, digit).None?
    ensures Reads(input, digit, v, before, after) && Nesting(v) <= MAXIMUM_DEPTH && DistinctKeys(v, digit)
  {
    hide ScanValue, GoodValue, Spell, DistinctKeys;
    var start := SkipSpace(input, 0);
    var end := ScanValue(input, start, 0, digit).next;
    v := ValueSound(input, start, 0, digit);
    before, after := input[..start], input[end..];
    SpaceIsBlank(input, 0);
    SpaceIsBlank(input, end);
    assert input == input[0..start] + (input[start..end] + input[end..|input|]);
  }

  lemma {:induction false} TextComplete(input: Text, digit: Unit -> bool, v: Value, before: Text, after: Text)
    requires DigitClass(digit) && Reads(input, digit, v, before, after) && Nesting(v) <= MAXIMUM_DEPTH
    ensures ScanText(input, digit) == if DistinctKeys(v, digit) then None else Some(DuplicateJsonKey)
  {
    hide ScanValue, GoodValue, Spell, DistinctKeys, DigitClass, SkipSpace, Nesting;
    assert StartsWith(input, 0, input);
    SplitStart(input, 0, before, Spell(v) + after);
    SplitStart(input, |before|, Spell(v), after);
    FirstOfValue(input, |before|, v, digit);
    SpaceIsSkipped(input, 0, before);
    var end := |before| + |Spell(v)|;
    assert input[end..] == after;
    ValueComplete(input, |before|, 0, v, digit);
    SpaceIsSkipped(input, end, after);
  }

  lemma TextFits(input: Text, digit: Unit -> bool, v: Value, before: Text, after: Text)
    requires DigitClass(digit) && Reads(input, digit, v, before, after) && ScanText(input, digit).None?
    ensures Nesting(v) <= MAXIMUM_DEPTH
  {
    hide ScanValue, GoodValue, Spell, DigitClass, SkipSpace, Nesting;
    assert StartsWith(input, 0, input);
    SplitStart(input, 0, before, Spell(v) + after);
    SplitStart(input, |before|, Spell(v), after);
    FirstOfValue(input, |before|, v, digit);
    SpaceIsSkipped(input, 0, before);
    var end := |before| + |Spell(v)|;
    assert input[end..] == after;
    ValueFits(input, |before|, 0, v, digit);
  }

  // Of any text, read in any way: it is accepted exactly when that reading is not too deep and
  // repeats no key.
  lemma {:induction false} AcceptedByAnyReading(input: Text, digit: Unit -> bool, v: Value, before: Text, after: Text)
    requires DigitClass(digit) && Reads(input, digit, v, before, after)
    ensures ScanText(input, digit).None? <==> Nesting(v) <= MAXIMUM_DEPTH && DistinctKeys(v, digit)
  {
    hide ScanText, GoodValue, Spell, DigitClass, Nesting, DistinctKeys;
    if ScanText(input, digit).None? {
      TextFits(input, digit, v, before, after);
    }
    if Nesting(v) <= MAXIMUM_DEPTH {
      TextComplete(input, digit, v, before, after);
    }
  }

  // The scanner accepts a text exactly when it is JSON, nested at most 32 deep, without a repeated key in an object.
  lemma {:induction false} AcceptsExactly(input: Text, digit: Unit -> bool)
    requires DigitClass(digit)
    ensures ScanText(input, digit).None? <==>
            exists v, before, after ::
              Reads(input, digit, v, before, after) && Nesting(v) <= MAXIMUM_DEPTH && DistinctKeys(v, digit)
  {
    hide GoodValue, Spell, ScanText, DistinctKeys, Nesting;
    if ScanText(input, digit).None? {
      var v, before, after := TextSound(input, digit);
    }
    forall v, before, after | Reads(input, digit, v, before, after) && Nesting(v) <= MAXIMUM_DEPTH
        && DistinctKeys(v, digit)
      ensures ScanText(input, digit).None?
    {
      TextComplete(input, digit, v, before, after);
    }
  }

  // ---- Where the code's digits differ from those of RFC 8259 ----

  predicate PlainAscii(w: Text) {
    forall i :: 0 <= i < |w| ==> w[i] < 0x80
  }

  // Every number inside is written in ASCII.
  predicate AsciiNumbers(v: Value) {
    match v
    case Number(n) => PlainAscii(n.whole) && (n.fraction.Some? ==> PlainAscii(n.fraction.value))
                      && (n.exponent.Some? ==> PlainAscii(n.exponent.value.digits))
    case Array(_, items) => AsciiInItems(items)
    case Object(_, members) => AsciiInMembers(members)
    case _ => true
  }

  predicate AsciiInItems(items: Items) {
    AsciiNumbers(items.value) && (items.MoreItems? ==> AsciiInItems(items.rest))
  }

  predicate AsciiInMembers(members: Members) {
    AsciiNumbers(members.value) && (members.MoreMembers? ==> AsciiInMembers(members.rest))
  }

  lemma AsciiWhole(whole: Text, digit: Unit -> bool)
    requires DigitClass(digit)
    ensures GoodWhole(whole, AsciiDigit) <==> GoodWhole(whole, digit) && PlainAscii(whole)
  {
    if whole != [] {
      assert whole == [whole[0]] + whole[1..];
    }
  }

  // What the scanner takes for JSON is JSON by RFC 8259 exactly when its numbers are written in ASCII.
  lemma {:induction false} IsJsonExactlyWhenNumbersAreAscii(v: Value, digit: Unit -> bool)
    requires DigitClass(digit)
    ensures GoodValue(v, AsciiDigit) <==> GoodValue(v, digit) && AsciiNumbers(v)
    decreases v
  {
    match v {
      case Number(n) => AsciiWhole(n.whole, digit);
      case Array(_, items) => AsciiItems(items, digit);
      case Object(_, members) => AsciiMembers(members, digit);
      case _ =>
    }
  }

  lemma {:induction false} AsciiItems(items: Items, digit: Unit -> bool)
    requires DigitClass(digit)
    ensures GoodItems(items, AsciiDigit) <==> GoodItems(items, digit) && AsciiInItems(items)
    decreases items
  {
    IsJsonExactlyWhenNumbersAreAscii(items.value, digit);
    if items.MoreItems? {
      AsciiItems(items.rest, digit);
    }
  }

  lemma {:induction false} AsciiMembers(members: Members, digit: Unit -> bool)
    requires DigitClass(digit)
    ensures GoodMembers(members, AsciiDigit) <==> GoodMembers(members, digit) && AsciiInMembers(members)
    decreases members
  {
    IsJsonExactlyWhenNumbersAreAscii(members.value, digit);
    if members.MoreMembers? {
      AsciiMembers(members.rest, digit);
    }
  }

  // A text by the grammar of RFC 8259, section 2, with its digits.
  ghost predicate IsJson(input: Text) {
    exists v, before, after :: Reads(input, AsciiDigit, v, before, after)
  }

  // A reading of the text, in the scanner's digits, whose numbers are written in ASCII.
  ghost predicate ReadsInAscii(input: Text, digit: Unit -> bool, v: Value, before: Text, after: Text) {
    Reads(input, digit, v, before, after) && AsciiNumbers(v)
  }

  // So a text, and with it every accepted one, is JSON by RFC 8259 exactly when the scanner's grammar
  // reads it in some way in which all numbers are ASCII.
  lemma {:induction false} TextIsJsonExactlyWhenReadInAscii(input: Text, digit: Unit -> bool)
    requires DigitClass(digit)
    ensures IsJson(input) <==> exists v, before, after :: ReadsInAscii(input, digit, v, before, after)
  {
    hide GoodValue, Spell, AsciiNumbers;
    if IsJson(input) {
      var v, before, after :| Reads(input, AsciiDigit, v, before, after);
      IsJsonExactlyWhenNumbersAreAscii(v, digit);
      assert ReadsInAscii(input, digit, v, before, after);
    }
    if v, before, after :| ReadsInAscii(input, digit, v, before, after) {
      IsJsonExactlyWhenNumbersAreAscii(v, digit);
      assert Reads(input, AsciiDigit, v, before, after);
    }
  }

  // Which keys an object has does not depend on the digits.
  lemma {:induction false} SameDistinct(v: Value, one: Unit -> bool, other: Unit -> bool)
    requires GoodValue(v, one) && GoodValue(v, other)
    ensures DistinctKeys(v, one) == DistinctKeys(v, other)
    decreases v
  {
    match v {
      case Array(_, items) => SameDistinctItems(items, one, other);
      case Object(_, members) => SameDistinctMembers(members, one, other);
      case _ =>
    }
  }

  lemma {:induction false} SameDistinctItems(items: Items, one: Unit -> bool, other: Unit -> bool)
    requires GoodItems(items, one) && GoodItems(items, other)
    ensures DistinctInItems(items, one) == DistinctInItems(items, other)
    decreases items
  {
    SameDistinct(items.value, one, other);
    if items.MoreItems? {
      SameDistinctItems(items.rest, one, other);
    }
  }

  lemma {:induction false} SameDistinctMembers(members: Members, one: Unit -> bool, other: Unit -> bool)
    requires GoodMembers(members, one) && GoodMembers(members, other)
    ensures Keys(members, one) == Keys(members, other)
    ensures DistinctInMembers(members, one) == DistinctInMembers(members, other)
    decreases members
  {
    SameDistinct(members.value, one, other);
    if members.MoreMembers? {
      SameDistinctMembers(members.rest, one, other);
    }
  }

  // Of the texts the scanner accepts, those that are JSON by RFC 8259 are exactly the ones it accepts
  // as well when it takes only ASCII digits for digits.
  lemma {:induction false} AsciiScanAcceptsExactlyTheJson(input: Text, digit: Unit -> bool)
    requires DigitClass(digit)
    ensures ScanText(input, AsciiDigit).None? <==> ScanText(input, digit).None? && IsJson(input)
  {
    assert DigitClass(AsciiDigit);
    hide GoodValue, Spell, AsciiNumbers, ScanText, DistinctKeys, Nesting, DigitClass;
    if ScanText(input, AsciiDigit).None? {
      var v, before, after := TextSound(input, AsciiDigit);
    }
    if IsJson(input) {
      var v, before, after :| Reads(input, AsciiDigit, v, before, after);
      IsJsonExactlyWhenNumbersAreAscii(v, digit);
      SameDistinct(v, AsciiDigit, digit);
      AcceptedByAnyReading(input, AsciiDigit, v, before, after);
      AcceptedByAnyReading(input, digit, v, before, after);
    }
  }

  // A one followed by a digit outside ASCII passes the scanner, though it is no JSON number.
  lemma {:induction false} WiderDigitsPass(digit: Unit -> bool, wide: Unit)
    requires DigitClass(digit) && digit(wide) && wide >= 0x80
    ensures ScanText([0x31, wide], digit).None?
    ensures ScanText([0x31, wide], AsciiDigit) == Some(InvalidJson)
  {
    var s: Text := [0x31, wide];
    assert SkipDigits(s, 1, digit) == 2 by { assert SkipDigits(s, 2, digit) == 2; }
    assert SkipDigits(s, 1, AsciiDigit) == 1;
    assert ScanNumber(s, 0, digit) == To(2);
    assert ScanNumber(s, 0, AsciiDigit) == To(1);
    assert !IsSpace(wide);
  }
}

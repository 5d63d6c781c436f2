/** Text as the user interface holds it: UTF-16 code units, counted in Unicode scalar values. */
module Utf16Text {

  datatype Option<+T> = None | Some(value: T)

  type Unit = u: int | 0 <= u < 0x1_0000

  type Text = seq<Unit>

  // Section 3.9 of the Unicode Standard: a code point that is not a surrogate.
  type Scalar = c: int | 0 <= c < 0xD800 || 0xE000 <= c < 0x11_0000

  predicate IsHigh(u: Unit) {
    0xD800 <= u <= 0xDBFF
  }

  predicate IsLow(u: Unit) {
    0xDC00 <= u <= 0xDFFF
  }

  function EncodeScalar(c: Scalar): (units: Text)
    ensures 1 <= |units| <= 2
  {
    if c < 0x1_0000 then [c]
    else [0xD800 + (c - 0x1_0000) / 0x400, 0xDC00 + (c - 0x1_0000) % 0x400]
  }

  function Encode(scalars: seq<Scalar>): Text {
    if scalars == [] then [] else EncodeScalar(scalars[0]) + Encode(scalars[1..])
  }

  // How many units the first scalar takes; none if the text starts with an unpaired surrogate.
  function FirstLength(text: Text): (n: Option<nat>)
    requires text != []
    ensures n.Some? ==> 1 <= n.value <= 2 && n.value <= |text|
  {
    if IsHigh(text[0]) then
      if |text| >= 2 && IsLow(text[1]) then Some(2) else None
    else if IsLow(text[0]) then None
    else Some(1)
  }

  function FirstScalar(text: Text): (c: Scalar)
    requires text != [] && FirstLength(text).Some?
    ensures EncodeScalar(c) == text[..FirstLength(text).value]
  {
    if IsHigh(text[0]) then 0x1_0000 + (text[0] as int - 0xD800) * 0x400 + (text[1] as int - 0xDC00)
    else text[0]
  }

  function Decode(text: Text): (scalars: Option<seq<Scalar>>)
    ensures scalars.Some? ==> Encode(scalars.value) == text
  {
    if text == [] then Some([])
    else match FirstLength(text)
      case None => None
      case Some(n) =>
        match Decode(text[n..])
        case None => None
        case Some(rest) =>
          assert text == text[..n] + text[n..];
          Some([FirstScalar(text)] + rest)
  }

  lemma FirstOfEncoded(c: Scalar, rest: Text)
    ensures FirstLength(EncodeScalar(c) + rest) == Some(|EncodeScalar(c)|)
    ensures FirstScalar(EncodeScalar(c) + rest) == c
  {
  }

  lemma {:induction false} DecodeInvertsEncode(scalars: seq<Scalar>)
    ensures Decode(Encode(scalars)) == Some(scalars)
  {
    if scalars != [] {
      var head, rest := EncodeScalar(scalars[0]), Encode(scalars[1..]);
      FirstOfEncoded(scalars[0], rest);
      assert (head + rest)[|head|..] == rest;
      DecodeInvertsEncode(scalars[1..]);
      assert [scalars[0]] + scalars[1..] == scalars;
    }
  }

  function ScalarCount(text: Text): Option<nat> {
    match Decode(text)
    case None => None
    case Some(scalars) => Some(|scalars|)
  }

  // The count is the length of the one scalar sequence the text encodes; without one there is no count.
  lemma {:induction false} CountsTheEncodedScalars(text: Text, scalars: seq<Scalar>)
    ensures Encode(scalars) == text ==> ScalarCount(text) == Some(|scalars|)
    ensures ScalarCount(text).Some? ==> Encode(Decode(text).value) == text
  {
    DecodeInvertsEncode(scalars);
  }

  function Plus(count: Option<nat>, n: nat): Option<nat> {
    match count case None => None case Some(more) => Some(n + more)
  }

  // No scalar starts with a low unit, or with a high one that no low one follows.
  predicate Unpaired(text: Text, index: nat)
    requires index < |text|
  {
    IsLow(text[index]) || (IsHigh(text[index]) && (index + 1 >= |text| || !IsLow(text[index + 1])))
  }

  function CountFrom(text: Text, index: nat): Option<nat>
    requires index <= |text|
  {
    ScalarCount(text[index..])
  }

  lemma CountEnds(text: Text)
    ensures CountFrom(text, 0) == ScalarCount(text) && CountFrom(text, |text|) == Some(0)
  {
    assert text[0..] == text;
  }

  lemma CountStep(text: Text, index: nat)
    requires index < |text|
    ensures Unpaired(text, index) ==> CountFrom(text, index).None?
    ensures !Unpaired(text, index) ==>
              var next := if IsHigh(text[index]) then index + 2 else index + 1;
              next <= |text| && CountFrom(text, index) == Plus(CountFrom(text, next), 1)
  {
    var here := text[index..];
    if FirstLength(here).Some? {
      assert here[FirstLength(here).value..] == text[index + FirstLength(here).value..];
    }
  }

  // Counts the scalars the text encodes, or reports that it encodes none.
  method UnicodeScalarCount(text: Text) returns (count: Option<nat>)
    ensures count == ScalarCount(text)
  {
    hide ScalarCount, CountFrom;
    CountEnds(text);
    var n, index := 0, 0;
    while index < |text|
      invariant 0 <= index <= |text|
      invariant ScalarCount(text) == Plus(CountFrom(text, index), n)
    {
      CountStep(text, index);
      if IsHigh(text[index]) {
        if index + 1 >= |text| || !IsLow(text[index + 1]) {
          return None;
        }
        index := index + 1;
      } else if IsLow(text[index]) {
        return None;
      }
      n, index := n + 1, index + 1;
    }
    return Some(n);
  }

  // At most `maximum` scalars, well-formed, without a null character.
  predicate Bounded(text: Text, maximum: nat, allowEmpty: bool) {
    && ScalarCount(text).Some?
    && ScalarCount(text).value <= maximum
    && (allowEmpty || ScalarCount(text).value > 0)
    && 0 !in text
  }

  method IsBoundedText(text: Text, maximum: nat, allowEmpty: bool) returns (ok: bool)
    ensures ok <==> Bounded(text, maximum, allowEmpty)
  {
    var count := UnicodeScalarCount(text);
    ok := count.Some? && count.value <= maximum && (allowEmpty || count.value > 0) && 0 !in text;
  }

  lemma NonemptyText(text: Text, maximum: nat)
    ensures Bounded(text, maximum, false) <==> Bounded(text, maximum, true) && text != []
  {
  }

  // A literal of the source, all of them plain ASCII.
  function Ascii(s: string): Text {
    seq(|s|, i requires 0 <= i < |s| => if s[i] as int < 0x80 then s[i] as int else 0xFFFD)
  }

  predicate LowercaseSha256(text: Text) {
    |text| == 64 && forall i :: 0 <= i < 64 ==>
        '0' as int <= text[i] <= '9' as int || 'a' as int <= text[i] <= 'f' as int
  }

  function ZeroHead(): (text: Text)
    ensures LowercaseSha256(text)
  {
    seq(64, i => '0' as int)
  }
}

/** Counts and length-prefixed frames: the bytes that session identities and state digests are computed from. */
module Framing {

  type Octets = seq<int>

  // ---- Big-endian numbers ----

  function Power256(n: nat): (p: nat)
    ensures p > 0
  {
    if n == 0 then 1 else 256 * Power256(n - 1)
  }

  const TWO_TO_THE_64: nat := 0x1_0000_0000_0000_0000

  function BigEndian(value: nat, n: nat): (bytes: Octets)
    ensures |bytes| == n && forall i :: 0 <= i < n ==> 0 <= bytes[i] < 256
  {
    if n == 0 then [] else BigEndian(value / 256, n - 1) + [value % 256]
  }

  function U64(value: nat): Octets {
    BigEndian(value, 8)
  }

  lemma EightBytesSuffice()
    ensures Power256(8) == TWO_TO_THE_64
  {
    assert Power256(4) == 256 * (256 * (256 * (256 * Power256(0))));
    assert Power256(8) == 256 * (256 * (256 * (256 * Power256(4))));
  }

  lemma {:induction false} BigEndianIsInjective(a: nat, b: nat, n: nat)
    requires a < Power256(n) && b < Power256(n) && BigEndian(a, n) == BigEndian(b, n)
    ensures a == b
  {
    if n > 0 {
      var x, y := BigEndian(a, n), BigEndian(b, n);
      assert x[..n - 1] == BigEndian(a / 256, n - 1) && y[..n - 1] == BigEndian(b / 256, n - 1);
      assert x[n - 1] == a % 256 && y[n - 1] == b % 256;
      BigEndianIsInjective(a / 256, b / 256, n - 1);
    }
  }

  lemma MulKeepsOrder(d: nat, x: nat, y: nat)
    requires x <= y
    ensures d * x <= d * y
  {
  }

  lemma QuotientIs(v: nat, d: nat, p: nat, r: nat)
    requires d > 0 && v == d * p + r && r < d
    ensures v / d == p
  {
    var q, m := v / d, v % d;
    assert v == d * q + m;
    if q < p {
      MulKeepsOrder(d, q + 1, p);
    } else if q > p {
      MulKeepsOrder(d, p + 1, q);
    }
  }

  lemma Regroup(a: nat, b: nat, p: nat, t: nat, r: nat)
    ensures a * (b * p + t) + r == (a * b) * p + (a * t + r)
  {
  }

  lemma QuotientOfQuotient(v: nat, a: nat, b: nat, r: nat, p: nat, t: nat)
    requires v == a * (b * p + t) + r && r < a && t < b
    ensures a * b > 0 && v / (a * b) == p
  {
    Regroup(a, b, p, t, r);
    MulKeepsOrder(a, t + 1, b);
    assert a * (t + 1) == a * t + a;
    QuotientIs(v, a * b, p, a * t + r);
  }

  lemma DivMod(v: nat, a: nat)
    requires a > 0
    ensures v == a * (v / a) + v % a && v % a < a
  {
  }

  lemma DivideTwice(v: nat, a: nat, b: nat)
    requires a > 0 && b > 0
    ensures a * b > 0 && (v / a) / b == v / (a * b)
  {
    DivMod(v, a);
    DivMod(v / a, b);
    QuotientOfQuotient(v, a, b, v % a, v / a / b, v / a % b);
  }

  // Each byte on its own: the value shifted right past the bytes that follow it.
  lemma {:induction false} ByteOfBigEndian(value: nat, n: nat, i: nat)
    requires i < n
    ensures BigEndian(value, n)[i] == (value / Power256(n - 1 - i)) % 256
    decreases n
  {
    if i == n - 1 {
      assert value / 1 == value;
    } else {
      ByteOfBigEndian(value / 256, n - 1, i);
      DivideTwice(value, 256, Power256(n - 2 - i));
    }
  }

  // ---- Frames and lists ----

  function Frame(bytes: Octets): Octets {
    U64(|bytes|) + bytes
  }

  // Every element after the other.
  function Run<T>(xs: seq<T>, encode: T -> Octets): Octets {
    if xs == [] then [] else Run(xs[..|xs| - 1], encode) + encode(xs[|xs| - 1])
  }

  function Counted<T>(xs: seq<T>, encode: T -> Octets): Octets {
    U64(|xs|) + Run(xs, encode)
  }

  // ---- Unique decodability: equal encodings in front of anything mean equal values, and equal rests ----

  lemma U64Cancels(a: nat, b: nat, r: Octets, s: Octets)
    requires a < TWO_TO_THE_64 && b < TWO_TO_THE_64 && U64(a) + r == U64(b) + s
    ensures a == b && r == s
  {
    EightBytesSuffice();
    assert (U64(a) + r)[..8] == U64(a) && (U64(b) + s)[..8] == U64(b);
    assert (U64(a) + r)[8..] == r && (U64(b) + s)[8..] == s;
    BigEndianIsInjective(a, b, 8);
  }

  lemma {:induction false} FrameCancels(v: Octets, w: Octets, r: Octets, s: Octets)
    requires |v| < TWO_TO_THE_64 && |w| < TWO_TO_THE_64 && Frame(v) + r == Frame(w) + s
    ensures v == w && r == s
  {
    hide U64;
    assert Frame(v) + r == U64(|v|) + (v + r);
    assert Frame(w) + s == U64(|w|) + (w + s);
    U64Cancels(|v|, |w|, v + r, w + s);
    assert v == (v + r)[..|v|] == (w + s)[..|w|] == w;
    assert r == (v + r)[|v|..] == (w + s)[|w|..] == s;
  }

  ghost predicate Cancels<T(!new)>(encode: T -> Octets, fits: T -> bool) {
    forall x, y, r, s :: fits(x) && fits(y) && encode(x) + r == encode(y) + s ==> x == y && r == s
  }

  ghost predicate AllFit<T(!new)>(xs: seq<T>, fits: T -> bool) {
    |xs| < TWO_TO_THE_64 && forall x :: x in xs ==> fits(x)
  }

  lemma {:induction false} RunCancels<T(!new)>(xs: seq<T>, ys: seq<T>, encode: T -> Octets, fits: T -> bool, r: Octets,
                                              s: Octets)
    requires Cancels(encode, fits) && |xs| == |ys|
    requires (forall x :: x in xs ==> fits(x)) && (forall y :: y in ys ==> fits(y))
    requires Run(xs, encode) + r == Run(ys, encode) + s
    ensures xs == ys && r == s
    decreases |xs|
  {
    var n := |xs| - 1;
    if xs != [] {
      var x, y := encode(xs[n]), encode(ys[n]);
      assert Run(xs, encode) + r == Run(xs[..n], encode) + (x + r);
      assert Run(ys, encode) + s == Run(ys[..n], encode) + (y + s);
      RunCancels(xs[..n], ys[..n], encode, fits, x + r, y + s);
      assert xs == xs[..n] + [xs[n]] && ys == ys[..n] + [ys[n]];
    } else {
      assert [] + r == r && [] + s == s;
    }
  }

  lemma {:induction false} CountedCancels<T(
    !new)>(xs: seq<T>, ys: seq<T>, encode: T -> Octets, fits: T -> bool, r: Octets, s: Octets)
    requires Cancels(encode, fits) && AllFit(xs, fits) && AllFit(ys, fits)
    requires Counted(xs, encode) + r == Counted(ys, encode) + s
    ensures xs == ys && r == s
  {
    hide U64, Cancels;
    assert Counted(xs, encode) + r == U64(|xs|) + (Run(xs, encode) + r);
    assert Counted(ys, encode) + s == U64(|ys|) + (Run(ys, encode) + s);
    U64Cancels(|xs|, |ys|, Run(xs, encode) + r, Run(ys, encode) + s);
    RunCancels(xs, ys, encode, fits, r, s);
  }

  // ---- UTF-8: section 3 of RFC 3629 ----

  function Utf8One(c: char): (bytes: Octets)
    ensures 1 <= |bytes| <= 4
  {
    var u := c as int;
    if u < 0x80 then [u]
    else if u < 0x800 then [0xC0 + u / 64, 0x80 + u % 64]
    else if u < 0x1_0000 then [0xE0 + u / 4096, 0x80 + u / 64 % 64, 0x80 + u % 64]
    else [0xF0 + u / 262144, 0x80 + u / 4096 % 64, 0x80 + u / 64 % 64, 0x80 + u % 64]
  }

  function Utf8(text: string): (bytes: Octets)
    ensures |bytes| <= 4 * |text|
  {
    if text == [] then [] else Utf8One(text[0]) + Utf8(text[1..])
  }

  // How many bytes the first one announces, and the scalar that they spell.
  function Announced(first: int): nat {
    if first < 0x80 then 1 else if first < 0xE0 then 2 else if first < 0xF0 then 3 else 4
  }

  function Spelled(b: Octets): int
    requires 1 <= |b| <= 4
  {
    match |b|
    case 1 => b[0]
    case 2 => (b[0] - 0xC0) * 64 + (b[1] - 0x80)
    case 3 => ((b[0] - 0xE0) * 64 + (b[1] - 0x80)) * 64 + (b[2] - 0x80)
    case _ => (((b[0] - 0xF0) * 64 + (b[1] - 0x80)) * 64 + (b[2] - 0x80)) * 64 + (b[3] - 0x80)
  }

  lemma Utf8OneIsDecodable(c: char)
    ensures Announced(Utf8One(c)[0]) == |Utf8One(c)|
    ensures Spelled(Utf8One(c)) == c as int
  {
    var u := c as int;
    assert u / 4096 == u / 64 / 64 && u / 262144 == u / 64 / 64 / 64;
  }

  lemma Utf8OneCancels(c: char, d: char, r: Octets, s: Octets)
    requires Utf8One(c) + r == Utf8One(d) + s
    ensures c == d && r == s
  {
    Utf8OneIsDecodable(c);
    Utf8OneIsDecodable(d);
    hide Utf8One, Spelled;
    var x, y := Utf8One(c), Utf8One(d);
    assert x[0] == (x + r)[0] == (y + s)[0] == y[0];
    assert x == (x + r)[..|x|] == (y + s)[..|y|] == y;
    assert r == (x + r)[|x|..] == (y + s)[|y|..] == s;
  }

  lemma {:induction false} Utf8IsInjective(a: string, b: string)
    requires Utf8(a) == Utf8(b)
    ensures a == b
  {
    if a != [] && b != [] {
      Utf8OneCancels(a[0], b[0], Utf8(a[1..]), Utf8(b[1..]));
      Utf8IsInjective(a[1..], b[1..]);
      assert a == [a[0]] + a[1..] && b == [b[0]] + b[1..];
    }
  }

  function TextFrame(text: string): Octets {
    Frame(Utf8(text))
  }

  // The encoded size can be held in 64 bits.
  predicate FitsText(text: string) {
    |Utf8(text)| < TWO_TO_THE_64
  }

  lemma TextFrameCancels(a: string, b: string, r: Octets, s: Octets)
    requires FitsText(a) && FitsText(b) && TextFrame(a) + r == TextFrame(b) + s
    ensures a == b && r == s
  {
    hide Utf8, Frame;
    FrameCancels(Utf8(a), Utf8(b), r, s);
    Utf8IsInjective(a, b);
  }

  // ---- The two encoders ----

  class ByteArray {
    var bytes: Octets

    constructor ()
      ensures bytes == []
    {
      bytes := [];
    }

    method Append(more: Octets)
      modifies this
      ensures bytes == old(bytes) + more
    {
      bytes := bytes + more;
    }

    // Fills a buffer from the front, shifting the value by what is left to write.
    method AppendUint64(value: nat)
      requires value < TWO_TO_THE_64
      modifies this
      ensures bytes == old(bytes) + U64(value)
    {
      var buffer := new int[8];
      for index := 0 to 8
        invariant forall k :: 0 <= k < index ==> buffer[k] == U64(value)[k]
        invariant bytes == old(bytes)
        modifies buffer
      {
        ByteOfBigEndian(value, 8, index);
        var shift := 8 - index - 1;
        buffer[index] := (value / Power256(shift)) % 256;
      }
      assert buffer[..] == U64(value);
      Append(buffer[..]);
    }

    // Fills a buffer from the back, shifting the value itself.
    method AddUint64(value: nat)
      requires value < TWO_TO_THE_64
      modifies this
      ensures bytes == old(bytes) + U64(value)
    {
      var buffer := new int[8];
      var left: nat := value;
      var index := 7;
      while index >= 0
        invariant -1 <= index <= 7
        invariant BigEndian(left, index + 1) + buffer[index + 1..] == U64(value)
        invariant bytes == old(bytes)
        modifies buffer
      {
        ghost var tail := buffer[index + 1..];
        buffer[index] := left % 256;
        assert buffer[index..] == [left % 256] + tail;
        left := left / 256;
        index := index - 1;
      }
      assert buffer[0..] == buffer[..];
      Append(buffer[..]);
    }

    method AppendFrame(value: Octets)
      requires |value| < TWO_TO_THE_64
      modifies this
      ensures bytes == old(bytes) + Frame(value)
    {
      AppendUint64(|value|);
      Append(value);
    }

    method AppendText(text: string)
      requires FitsText(text)
      modifies this
      ensures bytes == old(bytes) + TextFrame(text)
    {
      AppendFrame(Utf8(text));
    }

    method AddFrame(value: Octets)
      requires |value| < TWO_TO_THE_64
      modifies this
      ensures bytes == old(bytes) + Frame(value)
    {
      AddUint64(|value|);
      Append(value);
    }
  }
}

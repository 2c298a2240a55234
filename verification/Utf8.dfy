/** String comparison by UTF-8 bytes (section 3 of RFC 3629).

    Byte order is scalar-value order.  The comparator takes a shortcut over code units
    when all of them are small; the shortcut agrees with the bytes. */
module Utf8 {
  import opened Basics
  import opened Radix

  const REPLACEMENT: nat := 0xFFFD

  predicate High(u: Unit) {
    0xD800 <= u < 0xDC00
  }

  predicate Low(u: Unit) {
    0xDC00 <= u < 0xE000
  }

  predicate Scalar(c: nat) {
    c < 0xD800 || 0xE000 <= c < 0x11_0000
  }

  /** The scalar values a string stands for; a lone surrogate becomes U+FFFD. */
  function Scalars(s: Text): (r: seq<nat>)
    ensures forall i :: 0 <= i < |r| ==> Scalar(r[i])
    decreases |s|
  {
    if s == [] then []
    else if High(s[0]) && |s| > 1 && Low(s[1]) then
      [0x1_0000 + (s[0] - 0xD800) * 0x400 + (s[1] - 0xDC00)] + Scalars(s[2..])
    else [if High(s[0]) || Low(s[0]) then REPLACEMENT else s[0]] + Scalars(s[1..])
  }

  function EncodeScalar(c: nat): (bytes: seq<nat>)
    requires Scalar(c)
    ensures bytes != []
  {
    if c < 0x80 then [c]
    else if c < 0x800 then [0xC0 + c / 64, 0x80 + c % 64]
    else if c < 0x1_0000 then [0xE0 + c / 64 / 64, 0x80 + c / 64 % 64, 0x80 + c % 64]
    else [0xF0 + c / 64 / 64 / 64, 0x80 + c / 64 / 64 % 64, 0x80 + c / 64 % 64, 0x80 + c % 64]
  }

  function EncodeScalars(scalars: seq<nat>): seq<nat>
    requires forall i :: 0 <= i < |scalars| ==> Scalar(scalars[i])
  {
    if scalars == [] then [] else EncodeScalar(scalars[0]) + EncodeScalars(scalars[1..])
  }

  function Encode(s: Text): seq<nat> {
    EncodeScalars(Scalars(s))
  }

  // ----- the two encodings -----

  predicate Continuation(b: nat) {
    0x80 <= b < 0xC0
  }

  /** The shortest sequence of bytes whose payload bits spell the scalar value: the table of
      section 3 of RFC 3629. */
  predicate Spells(bytes: seq<nat>, c: nat) {
    if |bytes| == 1 then bytes[0] == c < 0x80
    else if |bytes| == 2 then
      0xC0 <= bytes[0] < 0xE0 && Continuation(bytes[1]) && c == (bytes[0] - 0xC0) * 64 + (bytes[1] - 0x80) && 0x80 <= c
    else if |bytes| == 3 then
      0xE0 <= bytes[0] < 0xF0 && Continuation(bytes[1]) && Continuation(bytes[2]) &&
      c == ((bytes[0] - 0xE0) * 64 + (bytes[1] - 0x80)) * 64 + (bytes[2] - 0x80) && 0x800 <= c
    else
      |bytes| == 4 && 0xF0 <= bytes[0] < 0xF8 && Continuation(bytes[1]) && Continuation(bytes[2]) && Continuation(bytes[3]) &&
      c == (((bytes[0] - 0xF0) * 64 + (bytes[1] - 0x80)) * 64 + (bytes[2] - 0x80)) * 64 + (bytes[3] - 0x80) && 0x1_0000 <= c
  }

  /** A scalar value is encoded by the bytes that spell it, and by no others. */
  lemma EncodedIffSpelled(c: nat, bytes: seq<nat>)
    requires Scalar(c)
    ensures bytes == EncodeScalar(c) <==> Spells(bytes, c)
  {
    EncodedIsSpelled(c);
    if Spells(bytes, c) {
      SpelledOnce(bytes, EncodeScalar(c), c);
    }
  }

  lemma EncodedIsSpelled(c: nat)
    requires Scalar(c)
    ensures Spells(EncodeScalar(c), c)
  {
  }

  lemma SpelledOnce(a: seq<nat>, b: seq<nat>, c: nat)
    requires Spells(a, c) && Spells(b, c)
    ensures a == b
  {
    SameLength(a, b, c);
    if |a| == 2 {
      OneDigit(a[0] - 0xC0, a[1] - 0x80, b[0] - 0xC0, b[1] - 0x80);
    } else if |a| == 3 {
      OneDigit((a[0] - 0xE0) * 64 + (a[1] - 0x80), a[2] - 0x80, (b[0] - 0xE0) * 64 + (b[1] - 0x80), b[2] - 0x80);
      OneDigit(a[0] - 0xE0, a[1] - 0x80, b[0] - 0xE0, b[1] - 0x80);
    } else if |a| == 4 {
      var high, low := (a[0] - 0xF0) * 64 + (a[1] - 0x80), (b[0] - 0xF0) * 64 + (b[1] - 0x80);
      OneDigit(high * 64 + (a[2] - 0x80), a[3] - 0x80, low * 64 + (b[2] - 0x80), b[3] - 0x80);
      OneDigit(high, a[2] - 0x80, low, b[2] - 0x80);
      OneDigit(a[0] - 0xF0, a[1] - 0x80, b[0] - 0xF0, b[1] - 0x80);
    }
  }

  lemma SameLength(a: seq<nat>, b: seq<nat>, c: nat)
    requires Spells(a, c) && Spells(b, c)
    ensures |a| == |b|
  {
  }

  lemma OneDigit(a: nat, x: nat, b: nat, y: nat)
    requires a * 64 + x == b * 64 + y && x < 64 && y < 64
    ensures a == b && x == y
  {
  }

  /** The code units of a scalar value (section 2.1 of RFC 2781): itself, or a pair of
      surrogates with ten of its bits each. */
  function UnitsOf(c: nat): (r: Text)
    requires Scalar(c)
  {
    if c < 0x1_0000 then [c]
    else [0xD800 + (c - 0x1_0000) / 0x400, 0xDC00 + (c - 0x1_0000) % 0x400]
  }

  function AllUnits(scalars: seq<nat>): Text
    requires forall i :: 0 <= i < |scalars| ==> Scalar(scalars[i])
  {
    if scalars == [] then [] else UnitsOf(scalars[0]) + AllUnits(scalars[1..])
  }

  /** A surrogate without its other half beside it. */
  predicate Lone(s: Text, i: nat)
    requires i < |s|
  {
    (High(s[i]) && !(i + 1 < |s| && Low(s[i + 1]))) || (Low(s[i]) && !(i > 0 && High(s[i - 1])))
  }

  /** The string with every lone surrogate replaced. */
  function Mended(s: Text): (r: Text)
    ensures |r| == |s|
  {
    seq(|s|, i requires 0 <= i < |s| => if Lone(s, i) then REPLACEMENT else s[i])
  }

  /** The scalar values of a string are those its code units spell, pairs and all, once lone
      surrogates are replaced. */
  lemma {:induction false} ScalarsAreSpelled(s: Text)
    ensures AllUnits(Scalars(s)) == Mended(s)
    decreases |s|
  {
    if s != [] {
      if High(s[0]) && |s| > 1 && Low(s[1]) {
        var c := Scalars(s)[0];
        ScalarsAreSpelled(s[2..]);
        assert UnitsOf(c) == [s[0], s[1]];
        assert Scalars(s)[1..] == Scalars(s[2..]);
        MendedSplits(s, 2);
      } else {
        ScalarsAreSpelled(s[1..]);
        assert Scalars(s)[1..] == Scalars(s[1..]);
        MendedSplits(s, 1);
      }
    }
  }

  /** Mending past a whole pair, or past a unit that is no half of one. */
  lemma MendedSplits(s: Text, n: nat)
    requires 0 < n <= |s| && (n < |s| && Low(s[n]) ==> !High(s[n - 1]))
    ensures Mended(s) == Mended(s)[..n] + Mended(s[n..])
  {
    forall i | n <= i < |s|
      ensures Mended(s)[i] == Mended(s[n..])[i - n]
    {
      assert Lone(s, i) <==> Lone(s[n..], i - n);
    }
  }

  // ----- byte order is scalar order -----

  /** The smaller number is smaller in its six low bits or above them. */
  lemma SixBits(x: nat, y: nat)
    requires x <= y
    ensures x / 64 < y / 64 || (x / 64 == y / 64 && x % 64 <= y % 64)
    ensures x / 64 == y / 64 && x % 64 == y % 64 ==> x == y
  {
  }

  lemma LengthOfScalar(c: nat)
    requires Scalar(c)
    ensures |EncodeScalar(c)| == if c < 0x80 then 1 else if c < 0x800 then 2 else if c < 0x1_0000 then 3 else 4
  {
  }

  lemma OneByteSplit(x: nat, y: nat)
    requires x < y < 0x80
    ensures SplitsAt(EncodeScalar(x), EncodeScalar(y), 0)
  {
  }

  lemma TwoBytesSplit(x: nat, y: nat) returns (j: nat)
    requires 0x80 <= x < y < 0x800
    ensures j < 2 && SplitsAt(EncodeScalar(x), EncodeScalar(y), j)
  {
    SixBits(x, y);
    j := if x / 64 < y / 64 then 0 else 1;
  }

  lemma ThreeBytesSplit(x: nat, y: nat) returns (j: nat)
    requires Scalar(x) && Scalar(y) && 0x800 <= x < y < 0x1_0000
    ensures j < 3 && SplitsAt(EncodeScalar(x), EncodeScalar(y), j)
  {
    SixBits(x, y);
    SixBits(x / 64, y / 64);
    j := if x / 64 / 64 < y / 64 / 64 then 0 else if x / 64 < y / 64 then 1 else 2;
  }

  lemma FourBytesSplit(x: nat, y: nat) returns (j: nat)
    requires Scalar(x) && Scalar(y) && 0x1_0000 <= x < y
    ensures j < 4 && SplitsAt(EncodeScalar(x), EncodeScalar(y), j)
  {
    SixBits(x, y);
    SixBits(x / 64, y / 64);
    SixBits(x / 64 / 64, y / 64 / 64);
    j := if x / 64 / 64 / 64 < y / 64 / 64 / 64 then 0 else if x / 64 / 64 < y / 64 / 64 then 1 else if x / 64 < y / 64 then 2 else 3;
  }

  /** Two scalars differ first in one of their bytes, in their own order. */
  lemma ScalarsSplit(x: nat, y: nat) returns (j: nat)
    requires Scalar(x) && Scalar(y) && x < y
    ensures j < |EncodeScalar(x)| && SplitsAt(EncodeScalar(x), EncodeScalar(y), j)
  {
    LengthOfScalar(x);
    LengthOfScalar(y);
    LongerLeads(x, y);
    hide EncodeScalar;
    if |EncodeScalar(x)| < |EncodeScalar(y)| {
      j := 0;
    } else if x < 0x80 {
      OneByteSplit(x, y);
      j := 0;
    } else if x < 0x800 {
      j := TwoBytesSplit(x, y);
    } else if x < 0x1_0000 {
      j := ThreeBytesSplit(x, y);
    } else {
      j := FourBytesSplit(x, y);
    }
  }

  /** More bytes, larger lead byte. */
  lemma LongerLeads(x: nat, y: nat)
    requires Scalar(x) && Scalar(y) && x < y
    ensures |EncodeScalar(x)| <= |EncodeScalar(y)|
    ensures |EncodeScalar(x)| < |EncodeScalar(y)| ==> EncodeScalar(x)[0] < EncodeScalar(y)[0]
  {
  }

  lemma BeforeAfterPrefix(p: seq<nat>, a: seq<nat>, b: seq<nat>, j: nat)
    requires SplitsAt(a, b, j)
    ensures SplitsAt(p + a, p + b, |p| + j)
  {
  }

  lemma SplitSurvives(a: seq<nat>, b: seq<nat>, j: nat, restA: seq<nat>, restB: seq<nat>)
    requires SplitsAt(a, b, j) && j < |a|
    ensures SplitsAt(a + restA, b + restB, j)
  {
  }

  lemma {:induction false} SplitScalarsSplitBytes(a: seq<nat>, b: seq<nat>, k: nat)
    requires (forall i :: 0 <= i < |a| ==> Scalar(a[i])) && (forall i :: 0 <= i < |b| ==> Scalar(b[i])) && SplitsAt(a, b, k)
    ensures Before(EncodeScalars(a), EncodeScalars(b))
    decreases k
  {
    if k == |a| == 0 {
      assert SplitsAt(EncodeScalars(a), EncodeScalars(b), 0);
    } else if k == 0 {
      var j := ScalarsSplit(a[0], b[0]);
      SplitSurvives(EncodeScalar(a[0]), EncodeScalar(b[0]), j, EncodeScalars(a[1..]), EncodeScalars(b[1..]));
    } else {
      SplitScalarsSplitBytes(a[1..], b[1..], k - 1);
      var j: nat :| SplitsAt(EncodeScalars(a[1..]), EncodeScalars(b[1..]), j);
      BeforeAfterPrefix(EncodeScalar(a[0]), EncodeScalars(a[1..]), EncodeScalars(b[1..]), j);
    }
  }

  /** Byte order is the order of the scalar values; equal bytes mean equal scalars. */
  lemma ByteOrderIsScalarOrder(a: seq<nat>, b: seq<nat>)
    requires (forall i :: 0 <= i < |a| ==> Scalar(a[i])) && (forall i :: 0 <= i < |b| ==> Scalar(b[i]))
    ensures Before(EncodeScalars(a), EncodeScalars(b)) <==> Before(a, b)
    ensures EncodeScalars(a) == EncodeScalars(b) <==> a == b
  {
    BeforeIsTotal(a, b);
    if Before(a, b) {
      var k: nat :| SplitsAt(a, b, k);
      SplitScalarsSplitBytes(a, b, k);
      BeforeIsAsymmetric(EncodeScalars(a), EncodeScalars(b));
      BeforeIsAsymmetric(a, b);
    } else if Before(b, a) {
      var k: nat :| SplitsAt(b, a, k);
      SplitScalarsSplitBytes(b, a, k);
      BeforeIsAsymmetric(EncodeScalars(b), EncodeScalars(a));
    } else {
      NotBeforeItself(EncodeScalars(a));
      NotBeforeItself(a);
    }
  }

  // ----- the shortcut -----

  /** Below the surrogates every code unit is its own scalar. */
  lemma {:induction false} PlainScalars(s: Text)
    requires forall i :: 0 <= i < |s| ==> s[i] < 0xD800
    ensures Scalars(s) == s
    decreases |s|
  {
    if s != [] {
      PlainScalars(s[1..]);
    }
  }

  /** Code-unit order is byte order for strings of such units. */
  lemma ShortcutIsSound(a: Text, b: Text)
    requires (forall i :: 0 <= i < |a| ==> a[i] < 0xD800) && (forall i :: 0 <= i < |b| ==> b[i] < 0xD800)
    ensures Before(Encode(a), Encode(b)) <==> Before(a, b)
    ensures Encode(a) == Encode(b) <==> a == b
  {
    PlainScalars(a);
    PlainScalars(b);
    ByteOrderIsScalarOrder(a, b);
  }

  /** Beyond the surrogates it is not: U+FFFF sorts before U+10000 in bytes, after it in units. */
  lemma ShortcutStopsAtSurrogates()
    ensures
      var a, b: Text := [0xFFFF], [0xD800, 0xDC00];
      Before(Encode(a), Encode(b)) && Before(b, a)
  {
    var a, b: Text := [0xFFFF], [0xD800, 0xDC00];
    assert Scalars(a) == [0xFFFF] by {
      assert a[1..] == [];
    }
    assert Scalars(b) == [0x1_0000] by {
      assert b[2..] == [];
    }
    assert SplitsAt(Scalars(a), Scalars(b), 0) && SplitsAt(b, a, 0);
    ByteOrderIsScalarOrder(Scalars(a), Scalars(b));
  }

  method IsLexicalFastPath(value: Text) returns (fast: bool)
    ensures fast <==> forall i :: 0 <= i < |value| ==> value[i] < 0x800
  {
    for i := 0 to |value|
      invariant forall k :: 0 <= k < i ==> value[k] < 0x800
    {
      if value[i] >= 0x800 {
        return false;
      }
    }
    return true;
  }

  /** Byte by byte, then by length. */
  method CompareBytes(a: seq<nat>, b: seq<nat>) returns (sign: int)
    ensures (sign < 0 <==> Before(a, b)) && (sign > 0 <==> Before(b, a)) && (sign == 0 <==> a == b)
  {
    var length := if |a| < |b| then |a| else |b|;
    for i := 0 to length
      invariant forall k :: 0 <= k < i ==> a[k] == b[k]
    {
      if a[i] != b[i] {
        if a[i] < b[i] {
          assert SplitsAt(a, b, i);
          BeforeIsAsymmetric(a, b);
          return -1;
        }
        assert SplitsAt(b, a, i);
        BeforeIsAsymmetric(b, a);
        return 1;
      }
    }
    if |a| < |b| {
      assert SplitsAt(a, b, length);
      BeforeIsAsymmetric(a, b);
      return -1;
    }
    if |a| > |b| {
      assert SplitsAt(b, a, length);
      BeforeIsAsymmetric(b, a);
      return 1;
    }
    NotBeforeItself(a);
    return 0;
  }

  /** Compares strings by their UTF-8 bytes, shortcut or not. */
  method CompareUtf8(a: Text, b: Text) returns (sign: int)
    ensures (sign < 0 <==> Before(Encode(a), Encode(b))) && (sign > 0 <==> Before(Encode(b), Encode(a)))
    ensures sign == 0 <==> Encode(a) == Encode(b)
  {
    hide Encode, Before;
    var plainA := IsLexicalFastPath(a);
    var plainB := IsLexicalFastPath(b);
    if plainA && plainB {
      ShortcutIsSound(a, b);
      ShortcutIsSound(b, a);
      sign := CompareTexts(a, b);
      return;
    }
    sign := CompareBytes(Encode(a), Encode(b));
  }
}

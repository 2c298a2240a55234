/** Document ids and their sixteen-byte packed form.

    Short ids are base-39 fractions; UUIDv7 ids (section 5.7 of RFC 9562) drop their
    version and variant bits behind a tag bit.  Packing and unpacking are inverse, and
    comparing two ids as strings gives the byte order of their packed forms. */
module DocIds {
  import opened Basics
  import opened Radix

  const DOC_ID_BYTE_LENGTH: nat := 16
  const SHORT_ID_MAX_LENGTH: nat := 24
  const SHORT_BASE: nat := 39
  const SHORT_ID_ALPHABET: string := "-0123456789_abcdefghijklmnopqrstuvwxyz"
  const UUID_FAMILY_TAG: nat := 0x8000_0000_0000_0000_0000_0000_0000_0000

  function Uniform(n: nat, b: Positive): (r: seq<nat>)
    ensures |r| == n && Radices(r) && forall i :: 0 <= i < n ==> r[i] == b
  {
    seq(n, _ => b)
  }

  const SHORT_RADICES := Uniform(24, 39)
  const BYTE_RADICES := Uniform(16, 256)

  // ----- short ids -----

  /** A character's digit: its place in the alphabet, counted from 1; 0 for any other. */
  function DigitOf(u: Unit): (d: nat)
    ensures d < SHORT_BASE
  {
    if u == 45 then 1
    else if 48 <= u <= 57 then u - 46
    else if u == 95 then 12
    else if 97 <= u <= 122 then u - 84
    else 0
  }

  function UnitOf(d: nat): Unit
    requires 0 < d < SHORT_BASE
  {
    if d == 1 then 45 else if d <= 11 then d + 46 else if d == 12 then 95 else d + 84
  }

  /** The digits number the alphabet. */
  lemma DigitsNumberTheAlphabet(i: nat)
    requires i < |SHORT_ID_ALPHABET|
    ensures |SHORT_ID_ALPHABET| == SHORT_BASE - 1
    ensures SHORT_ID_ALPHABET[i] as int == UnitOf(i + 1) && DigitOf(UnitOf(i + 1)) == i + 1
  {
    if i < 12 {
    } else if i < 25 {
    }
  }

  /** The alphabet is in character order. */
  lemma DigitsKeepOrder(a: Unit, b: Unit)
    requires DigitOf(a) != 0 && DigitOf(b) != 0
    ensures a < b <==> DigitOf(a) < DigitOf(b)
    ensures UnitOf(DigitOf(a)) == a
  {
  }

  predicate IsShort(id: Text) {
    0 < |id| <= SHORT_ID_MAX_LENGTH && forall k :: 0 <= k < |id| ==> DigitOf(id[k]) != 0
  }

  /** An id's digits, padded with zeros behind. */
  function ShortDigits(id: Text): (d: seq<nat>)
    ensures DigitsOf(d, SHORT_RADICES)
  {
    seq(24, k requires 0 <= k < 24 => if k < |id| then DigitOf(id[k]) else 0)
  }

  function PackShort(id: Text): seq<nat> {
    Digits(Value(ShortDigits(id), SHORT_RADICES), BYTE_RADICES)
  }

  /** How many digits stand before the first zero. */
  function Lead(d: seq<nat>): (m: nat)
    ensures m <= |d| && (forall k :: 0 <= k < m ==> d[k] != 0) && (m < |d| ==> d[m] == 0)
  {
    if d == [] || d[0] == 0 then 0 else 1 + Lead(d[1..])
  }

  /** No digit follows a zero. */
  predicate Unbroken(d: seq<nat>) {
    forall k :: Lead(d) <= k < |d| ==> d[k] == 0
  }

  function UnpackShort(bytes: seq<nat>): Option<Text>
    requires DigitsOf(bytes, BYTE_RADICES)
  {
    var value := Value(bytes, BYTE_RADICES);
    var d := Digits(value, SHORT_RADICES);
    if Rest(value, SHORT_RADICES) != 0 || d[0] == 0 || !Unbroken(d) then None
    else Some(seq(Lead(d), k requires 0 <= k < Lead(d) => UnitOf(d[k])))
  }

  // ----- the room there is -----

  lemma {:induction false} ProdSplits(a: seq<nat>, b: seq<nat>)
    ensures Prod(a + b) == Prod(a) * Prod(b)
    decreases |b|
  {
    if b == [] {
      assert a + b == a;
    } else {
      var n := |b| - 1;
      assert (a + b)[..|a| + n] == a + b[..n];
      ProdSplits(a, b[..n]);
      assert Prod(a) * Prod(b[..n]) * b[n] == Prod(a) * (Prod(b[..n]) * b[n]) by {
        Reassociate(Prod(a), Prod(b[..n]), b[n]);
      }
    }
  }

  lemma Reassociate(a: nat, b: nat, c: nat)
    ensures a * b * c == a * (b * c)
  {
  }

  lemma Doubled(n: nat, b: Positive)
    ensures Prod(Uniform(n + n, b)) == Prod(Uniform(n, b)) * Prod(Uniform(n, b))
  {
    assert Uniform(n + n, b) == Uniform(n, b) + Uniform(n, b);
    ProdSplits(Uniform(n, b), Uniform(n, b));
  }

  lemma ProdOfThree(b: Positive)
    ensures Prod(Uniform(1, b)) == b && Prod(Uniform(3, b)) == b * b * b
  {
    var one := Uniform(1, b);
    assert one[..0] == [];
    Doubled(1, b);
    assert Uniform(3, b) == Uniform(2, b) + one;
    ProdSplits(Uniform(2, b), one);
  }

  /** 39^24 < 2^127: every short value stays below the tag bit. */
  lemma ShortStaysBelowTheTag()
    ensures Prod(SHORT_RADICES) < UUID_FAMILY_TAG
  {
    ProdOfThree(39);
    Doubled(3, 39);
    Doubled(6, 39);
    Doubled(12, 39);
    assert Prod(Uniform(6, 39)) == 59319 * 59319 == 3518743761;
    assert Prod(Uniform(12, 39)) == 3518743761 * 3518743761 == 12381557655576425121;
    assert Prod(Uniform(24, 39)) == 12381557655576425121 * 12381557655576425121;
  }

  /** Sixteen bytes hold twice the tag. */
  lemma BytesHoldTheTag()
    ensures Prod(BYTE_RADICES) == 2 * UUID_FAMILY_TAG
  {
    ProdOfThree(256);
    Doubled(1, 256);
    Doubled(2, 256);
    Doubled(4, 256);
    Doubled(8, 256);
  }

  lemma {:induction false} ValueSplits(a: seq<nat>, b: seq<nat>, ra: seq<nat>, rb: seq<nat>)
    requires |a| == |ra| && |b| == |rb|
    ensures Value(a + b, ra + rb) == Value(a, ra) * Prod(rb) + Value(b, rb)
    decreases |b|
  {
    if b == [] {
      assert a + b == a && ra + rb == ra;
    } else {
      var n := |b| - 1;
      assert (a + b)[..|a| + n] == a + b[..n] && (ra + rb)[..|ra| + n] == ra + rb[..n];
      ValueSplits(a, b[..n], ra, rb[..n]);
      Distribute(Value(a, ra) * Prod(rb[..n]), Value(b[..n], rb[..n]), rb[n]);
      Reassociate(Value(a, ra), Prod(rb[..n]), rb[n]);
    }
  }

  /** The lead byte counts in steps of half the tag's share. */
  lemma LeadByteWeighs(bytes: seq<nat>)
    requires DigitsOf(bytes, BYTE_RADICES)
    ensures Value(bytes, BYTE_RADICES) == bytes[0] * (UUID_FAMILY_TAG / 128) + Value(bytes[1..], Uniform(15, 256))
    ensures Value(bytes[1..], Uniform(15, 256)) < UUID_FAMILY_TAG / 128
  {
    hide Prod;
    var one, rest := Uniform(1, 256), Uniform(15, 256);
    assert bytes == bytes[..1] + bytes[1..] && BYTE_RADICES == one + rest;
    ValueSplits(bytes[..1], bytes[1..], one, rest);
    assert bytes[..1][..0] == [] && Value(bytes[..1], one) == bytes[0];
    ProdSplits(one, rest);
    ProdOfThree(256);
    BytesHoldTheTag();
    ValueIsBounded(bytes[1..], rest);
  }

  /** The first byte tells which side of the tag a value is on. */
  lemma FirstByteTells(bytes: seq<nat>)
    requires DigitsOf(bytes, BYTE_RADICES)
    ensures bytes[0] >= 128 <==> Value(bytes, BYTE_RADICES) >= UUID_FAMILY_TAG
  {
    hide Value;
    LeadByteWeighs(bytes);
    LeadDecides(bytes[0], UUID_FAMILY_TAG / 128, Value(bytes[1..], Uniform(15, 256)));
  }

  lemma LeadDecides(lead: nat, weight: nat, rest: nat)
    requires rest < weight
    ensures lead >= 128 <==> lead * weight + rest >= 128 * weight
  {
    Distribute(lead - 128, 128, weight);
    MultiplesAreApart(weight, lead - 128);
  }

  lemma {:induction false} LeadIs(d: seq<nat>, m: nat)
    requires m <= |d| && (forall k :: 0 <= k < m ==> d[k] != 0) && (m < |d| ==> d[m] == 0)
    ensures Lead(d) == m
  {
    if m > 0 {
      LeadIs(d[1..], m - 1);
    }
  }

  // ----- short ids: round trips -----

  lemma ShortRoundTrip(id: Text)
    requires IsShort(id)
    ensures DigitsOf(PackShort(id), BYTE_RADICES) && PackShort(id)[0] < 128
    ensures UnpackShort(PackShort(id)) == Some(id)
  {
    hide Value, Digits, Rest;
    var d := ShortDigits(id);
    var v := Value(d, SHORT_RADICES);
    ValueIsBounded(d, SHORT_RADICES);
    ShortStaysBelowTheTag();
    BytesHoldTheTag();
    FitsIffNothingLeft(v, BYTE_RADICES);
    FirstByteTells(PackShort(id));
    DigitsOfValue(d, SHORT_RADICES);
    LeadIs(d, |id|);
    forall k | 0 <= k < |id|
      ensures UnitOf(d[k]) == id[k]
    {
      DigitsKeepOrder(id[k], id[k]);
    }
    assert UnpackShort(PackShort(id)).value == id;
  }

  lemma ShortUnpackIsExact(bytes: seq<nat>, id: Text)
    requires DigitsOf(bytes, BYTE_RADICES) && UnpackShort(bytes) == Some(id)
    ensures IsShort(id) && PackShort(id) == bytes
  {
    hide Value, Digits, Rest;
    var v := Value(bytes, BYTE_RADICES);
    var d := Digits(v, SHORT_RADICES);
    FitsIffNothingLeft(v, SHORT_RADICES);
    DigitsOfValue(bytes, BYTE_RADICES);
    assert ShortDigits(id) == d;
  }

  // ----- UUIDv7 text -----

  const DASH: Unit := 45

  predicate IsDash(k: nat) {
    k == 8 || k == 13 || k == 18 || k == 23
  }

  /** Where the j-th hexadecimal digit stands in the text. */
  function Place(j: nat): nat {
    if j < 8 then j else if j < 12 then j + 1 else if j < 16 then j + 2 else if j < 20 then j + 3 else j + 4
  }

  /** Which hexadecimal digit stands at position k. */
  function PlainIndex(k: nat): nat
    requires k < 36 && !IsDash(k)
  {
    if k < 8 then k else if k < 13 then k - 1 else if k < 18 then k - 2 else if k < 23 then k - 3 else k - 4
  }

  predicate IsHex(u: Unit) {
    48 <= u <= 57 || 97 <= u <= 102
  }

  function Hex(u: Unit): (x: nat)
    ensures x < 16
  {
    if 48 <= u <= 57 then u - 48 else if 97 <= u <= 102 then u - 87 else 0
  }

  function HexUnit(x: nat): (u: Unit)
    requires x < 16
    ensures IsHex(u) && Hex(u) == x
  {
    if x < 10 then x + 48 else x + 87
  }

  /** Canonical form: 8-4-4-4-12 lower-case digits, version 7, variant 10. */
  predicate IsUuid(id: Text) {
    |id| == 36 && (forall k :: 0 <= k < 36 ==> if IsDash(k) then id[k] == DASH else IsHex(id[k])) &&
    id[14] == 55 && (id[19] == 56 || id[19] == 57 || id[19] == 97 || id[19] == 98)
  }

  function UuidBytes(id: Text): (bytes: seq<nat>)
    requires |id| == 36
    ensures DigitsOf(bytes, BYTE_RADICES)
  {
    seq(16, i requires 0 <= i < 16 => Hex(id[Place(2 * i)]) * 16 + Hex(id[Place(2 * i + 1)]))
  }

  function Nibble(bytes: seq<nat>, j: nat): (x: nat)
    requires DigitsOf(bytes, BYTE_RADICES) && j < 32
    ensures x < 16
  {
    if j % 2 == 0 then bytes[j / 2] / 16 else bytes[j / 2] % 16
  }

  function FormatUuid(bytes: seq<nat>): (id: Text)
    requires DigitsOf(bytes, BYTE_RADICES)
    ensures |id| == 36 && forall k :: 0 <= k < 36 ==> if IsDash(k) then id[k] == DASH else id[k] == HexUnit(Nibble(bytes, PlainIndex(k)))
  {
    seq(36, k requires 0 <= k < 36 => if IsDash(k) then DASH else HexUnit(Nibble(bytes, PlainIndex(k))))
  }

  lemma FormatInvertsBytes(id: Text)
    requires IsUuid(id)
    ensures FormatUuid(UuidBytes(id)) == id
  {
    hide Hex, HexUnit, Place, PlainIndex, Nibble, IsDash;
    var bytes := UuidBytes(id);
    forall k | 0 <= k < 36
      ensures FormatUuid(bytes)[k] == id[k]
    {
      if !IsDash(k) {
        DigitAt(k);
        NibbleOfId(id, PlainIndex(k));
        HexUnitInvertsHex(id[k]);
      }
    }
  }

  lemma DigitAt(k: nat)
    requires k < 36 && !IsDash(k)
    ensures PlainIndex(k) < 32 && Place(PlainIndex(k)) == k
  {
  }

  lemma HexUnitInvertsHex(u: Unit)
    requires IsHex(u)
    ensures Hex(u) < 16 && HexUnit(Hex(u)) == u
  {
  }

  lemma NibbleOfId(id: Text, j: nat)
    requires IsUuid(id) && j < 32
    ensures Place(j) < 36 && Nibble(UuidBytes(id), j) == Hex(id[Place(j)])
  {
    hide Hex, IsDash, PlainIndex;
    var i := j / 2;
    assert j == 2 * i || j == 2 * i + 1;
    PlacesAreDigits(2 * i);
    PlacesAreDigits(2 * i + 1);
    HexUnitInvertsHex(id[Place(2 * i)]);
    HexUnitInvertsHex(id[Place(2 * i + 1)]);
    SplitByte(Hex(id[Place(2 * i)]), Hex(id[Place(2 * i + 1)]));
  }

  lemma SplitByte(high: nat, low: nat)
    requires low < 16
    ensures (high * 16 + low) / 16 == high && (high * 16 + low) % 16 == low
  {
  }

  lemma BytesInvertFormat(bytes: seq<nat>)
    requires DigitsOf(bytes, BYTE_RADICES)
    ensures UuidBytes(FormatUuid(bytes)) == bytes
  {
    hide Hex, HexUnit, Place, PlainIndex, Nibble, IsDash;
    var id := FormatUuid(bytes);
    forall i | 0 <= i < 16
      ensures UuidBytes(id)[i] == bytes[i]
    {
      DigitOfFormat(bytes, 2 * i);
      DigitOfFormat(bytes, 2 * i + 1);
      NibblesOfByte(bytes, i);
    }
  }

  lemma DigitOfFormat(bytes: seq<nat>, j: nat)
    requires DigitsOf(bytes, BYTE_RADICES) && j < 32
    ensures Place(j) < 36 && Hex(FormatUuid(bytes)[Place(j)]) == Nibble(bytes, j)
  {
    hide Hex, HexUnit, Nibble;
    PlacesAreDigits(j);
  }

  lemma NibblesOfByte(bytes: seq<nat>, i: nat)
    requires DigitsOf(bytes, BYTE_RADICES) && i < 16
    ensures Nibble(bytes, 2 * i) * 16 + Nibble(bytes, 2 * i + 1) == bytes[i]
  {
    assert 2 * i / 2 == i && (2 * i + 1) / 2 == i && 2 * i % 2 == 0 && (2 * i + 1) % 2 == 1;
  }

  lemma PlacesAreDigits(j: nat)
    requires j < 32
    ensures Place(j) < 36 && !IsDash(Place(j)) && PlainIndex(Place(j)) == j
  {
  }

  // ----- the packed form of a UUID -----

  /** The payload's parts: everything but version and variant. */
  const FIELD_RADICES: seq<nat> := [256, 256, 256, 256, 256, 256, 16, 256, 64, 256, 256, 256, 256, 256, 256, 256]

  function Fields(bytes: seq<nat>): (f: seq<nat>)
    requires DigitsOf(bytes, BYTE_RADICES)
    ensures DigitsOf(f, FIELD_RADICES)
    ensures f == bytes[6 := bytes[6] % 16][8 := bytes[8] % 64]
  {
    bytes[6 := bytes[6] % 16][8 := bytes[8] % 64]
  }

  /** The bytes of a UUIDv7 again, version and variant put back. */
  function FromFields(f: seq<nat>): (bytes: seq<nat>)
    requires DigitsOf(f, FIELD_RADICES)
    ensures DigitsOf(bytes, BYTE_RADICES)
  {
    f[6 := 112 + f[6]][8 := 128 + f[8]]
  }

  function PackUuid(id: Text): seq<nat>
    requires |id| == 36
  {
    Digits(UUID_FAMILY_TAG + Value(Fields(UuidBytes(id)), FIELD_RADICES), BYTE_RADICES)
  }

  /** Two bits of one byte before six of the next. */
  function Pair(x: nat, y: nat): nat {
    x % 4 * 64 + y / 4
  }

  /** Six bits of one byte before two of the next. */
  function Six(x: nat, y: nat): nat {
    x % 64 * 4 + y / 64
  }

  /** Six bits of a byte before half of the version's nibble. */
  function SixAndNibble(x: nat, n: nat): nat {
    x % 64 * 4 + n / 4
  }

  /** The nibble, from the two bytes it was put in. */
  function NibbleOf(x: nat, y: nat): nat {
    x % 4 * 4 + y / 64
  }

  /** Unpacking byte by byte. */
  function Spread(p: seq<nat>): (f: seq<nat>)
    requires DigitsOf(p, BYTE_RADICES)
    ensures DigitsOf(f, FIELD_RADICES)
  {
    [Pair(p[0], p[1]), Pair(p[1], p[2]), Pair(p[2], p[3]), Pair(p[3], p[4]), Pair(p[4], p[5]), Pair(p[5], p[6]),
     NibbleOf(p[6], p[7]), Six(p[7], p[8]), p[8] % 64, p[9], p[10], p[11], p[12], p[13], p[14], p[15]]
  }

  /** Packing byte by byte: the parts two bits to the right, behind the tag. */
  function Squeezed(f: seq<nat>): (p: seq<nat>)
    requires DigitsOf(f, FIELD_RADICES)
    ensures DigitsOf(p, BYTE_RADICES)
  {
    [128 + f[0] / 64, Six(f[0], f[1]), Six(f[1], f[2]), Six(f[2], f[3]), Six(f[3], f[4]), Six(f[4], f[5]),
     SixAndNibble(f[5], f[6]), Pair(f[6], f[7]), f[7] % 4 * 64 + f[8], f[9], f[10], f[11], f[12], f[13], f[14], f[15]]
  }

  lemma PairOfSixes(x: nat, a: nat, y: nat)
    requires a < 256 && y < 256
    ensures Pair(Six(x, a), Six(a, y)) == a && Pair(128 + a / 64, Six(a, y)) == a
  {
    QuotientIsUnique(4, x % 64, a / 64, Six(x, a));
    QuotientIsUnique(4, a % 64, y / 64, Six(a, y));
    QuotientIsUnique(4, 32, a / 64, 128 + a / 64);
  }

  lemma SixOfPairs(x: nat, p: nat, y: nat)
    requires p < 256 && y < 256
    ensures Six(Pair(x, p), Pair(p, y)) == p
  {
    QuotientIsUnique(64, x % 4, p / 4, Pair(x, p));
    QuotientIsUnique(64, p % 4, y / 4, Pair(p, y));
  }

  lemma BeforeTheNibble(x: nat, a: nat, n: nat)
    requires a < 256 && n < 16
    ensures Pair(Six(x, a), SixAndNibble(a, n)) == a
  {
    QuotientIsUnique(4, x % 64, a / 64, Six(x, a));
    QuotientIsUnique(4, a % 64, n / 4, SixAndNibble(a, n));
  }

  lemma NibbleBack(a: nat, n: nat, b: nat)
    requires n < 16 && b < 256
    ensures NibbleOf(SixAndNibble(a, n), Pair(n, b)) == n
  {
    QuotientIsUnique(4, a % 64, n / 4, SixAndNibble(a, n));
    QuotientIsUnique(64, n % 4, b / 4, Pair(n, b));
  }

  lemma BehindTheNibble(n: nat, b: nat, c: nat)
    requires b < 256 && c < 64
    ensures Six(Pair(n, b), b % 4 * 64 + c) == b && (b % 4 * 64 + c) % 64 == c
  {
    QuotientIsUnique(64, n % 4, b / 4, Pair(n, b));
    QuotientIsUnique(64, b % 4, c, b % 4 * 64 + c);
  }

  lemma AroundTheNibble(x: nat, p: nat, y: nat)
    requires p < 256 && y < 256
    ensures SixAndNibble(Pair(x, p), NibbleOf(p, y)) == p
  {
    QuotientIsUnique(64, x % 4, p / 4, Pair(x, p));
    QuotientIsUnique(4, p % 4, y / 64, NibbleOf(p, y));
  }

  lemma PastTheNibble(p: nat, y: nat, z: nat)
    requires y < 256 && z < 256
    ensures Pair(NibbleOf(p, y), Six(y, z)) == y && Six(y, z) % 4 * 64 + z % 64 == z
  {
    QuotientIsUnique(4, p % 4, y / 64, NibbleOf(p, y));
    QuotientIsUnique(4, y % 64, z / 64, Six(y, z));
  }

  lemma SpreadInvertsSqueezed(f: seq<nat>)
    requires DigitsOf(f, FIELD_RADICES)
    ensures Spread(Squeezed(f)) == f && Squeezed(f)[0] / 4 % 32 == 0 && Squeezed(f)[0] >= 128
  {
    hide Pair, Six, SixAndNibble, NibbleOf;
    PairOfSixes(0, f[0], f[1]);
    PairOfSixes(f[0], f[1], f[2]);
    PairOfSixes(f[1], f[2], f[3]);
    PairOfSixes(f[2], f[3], f[4]);
    PairOfSixes(f[3], f[4], f[5]);
    BeforeTheNibble(f[4], f[5], f[6]);
    NibbleBack(f[5], f[6], f[7]);
    BehindTheNibble(f[6], f[7], f[8]);
  }

  lemma SqueezedInvertsSpread(p: seq<nat>)
    requires DigitsOf(p, BYTE_RADICES) && p[0] >= 128 && p[0] / 4 % 32 == 0
    ensures Squeezed(Spread(p)) == p
  {
    hide Pair, Six, SixAndNibble, NibbleOf;
    assert 128 + Pair(p[0], p[1]) / 64 == p[0] by {
      TaggedByteBack(p[0], p[1]);
    }
    SixOfPairs(p[0], p[1], p[2]);
    SixOfPairs(p[1], p[2], p[3]);
    SixOfPairs(p[2], p[3], p[4]);
    SixOfPairs(p[3], p[4], p[5]);
    SixOfPairs(p[4], p[5], p[6]);
    AroundTheNibble(p[5], p[6], p[7]);
    PastTheNibble(p[6], p[7], p[8]);
  }

  lemma TaggedByteBack(p: nat, y: nat)
    requires 128 <= p < 256 && p / 4 % 32 == 0 && y < 256
    ensures 128 + Pair(p, y) / 64 == p
  {
  }

  function UnpackUuid(bytes: seq<nat>): Option<Text>
    requires DigitsOf(bytes, BYTE_RADICES)
  {
    if bytes[0] / 4 % 32 != 0 then None else Some(FormatUuid(FromFields(Spread(bytes))))
  }

  // ----- the byte formulas compute the packed number -----

  lemma ValueStep(d: seq<nat>, r: seq<nat>, k: nat)
    requires |d| == |r| && k < |d|
    ensures Value(d[..k + 1], r[..k + 1]) == Value(d[..k], r[..k]) * r[k] + d[k]
  {
    assert d[..k + 1][..k] == d[..k] && r[..k + 1][..k] == r[..k];
  }

  /** The value of the first k + 1 parts, of either form. */
  function Upto(d: seq<nat>, r: seq<nat>, k: nat): nat
    requires |d| == |r| && k < |d|
  {
    Value(d[..k + 1], r[..k + 1])
  }

  lemma UptoStep(d: seq<nat>, r: seq<nat>, k: nat)
    requires |d| == |r| && k < |d|
    ensures Upto(d, r, k) == (if k == 0 then 0 else Upto(d, r, k - 1)) * r[k] + d[k]
  {
    ValueStep(d, r, k);
    assert d[..0] == [];
  }

  /** 128 * 256^k: the tag, as the first k + 1 bytes see it. */
  function TagAt(k: nat): nat {
    if k == 0 then 128 else TagAt(k - 1) * 256
  }

  /** Six whole bytes: two bits of each part wait for the next byte. */
  lemma {:induction false} SixBytesAlign(f: seq<nat>, k: nat)
    requires DigitsOf(f, FIELD_RADICES) && k <= 5
    ensures Upto(Squeezed(f), BYTE_RADICES, k) * 64 + f[k] % 64 == TagAt(k) * 64 + Upto(f, FIELD_RADICES, k)
  {
    hide Upto;
    UptoStep(Squeezed(f), BYTE_RADICES, k);
    UptoStep(f, FIELD_RADICES, k);
    if k > 0 {
      SixBytesAlign(f, k - 1);
      assert Squeezed(f)[k] == Six(f[k - 1], f[k]);
    }
  }

  /** The version nibble and the variant bits fall out; from here the bytes coincide. */
  lemma MiddleAligns(f: seq<nat>)
    requires DigitsOf(f, FIELD_RADICES)
    ensures Upto(Squeezed(f), BYTE_RADICES, 8) == TagAt(5) * 16777216 + Upto(f, FIELD_RADICES, 8)
  {
    hide Upto;
    SixBytesAlign(f, 5);
    UptoStep(Squeezed(f), BYTE_RADICES, 6);
    UptoStep(Squeezed(f), BYTE_RADICES, 7);
    UptoStep(Squeezed(f), BYTE_RADICES, 8);
    UptoStep(f, FIELD_RADICES, 6);
    UptoStep(f, FIELD_RADICES, 7);
    UptoStep(f, FIELD_RADICES, 8);
  }

  lemma {:induction false} TailAligns(f: seq<nat>, k: nat)
    requires DigitsOf(f, FIELD_RADICES) && 8 <= k <= 15
    ensures Upto(Squeezed(f), BYTE_RADICES, k) == TagAt(k) + Upto(f, FIELD_RADICES, k)
  {
    hide Upto, Squeezed;
    if k == 8 {
      MiddleAligns(f);
      TagByThree();
    } else {
      TailAligns(f, k - 1);
      UptoStep(Squeezed(f), BYTE_RADICES, k);
      UptoStep(f, FIELD_RADICES, k);
      SqueezedTail(f, k);
    }
  }

  lemma SqueezedTail(f: seq<nat>, k: nat)
    requires DigitsOf(f, FIELD_RADICES) && 9 <= k <= 15
    ensures Squeezed(f)[k] == f[k] && FIELD_RADICES[k] == 256
  {
  }

  lemma TagByThree()
    ensures TagAt(8) == TagAt(5) * 16777216
  {
    assert TagAt(6) == TagAt(5) * 256 && TagAt(7) == TagAt(6) * 256 && TagAt(8) == TagAt(7) * 256;
  }

  lemma TagIsLast()
    ensures TagAt(15) == UUID_FAMILY_TAG
  {
    assert TagAt(5) == 128 * 256 * 256 * 256 * 256 * 256;
    TagByThree();
    assert TagAt(9) == TagAt(8) * 256 && TagAt(10) == TagAt(9) * 256 && TagAt(11) == TagAt(10) * 256;
    assert TagAt(12) == TagAt(11) * 256 && TagAt(13) == TagAt(12) * 256 && TagAt(14) == TagAt(13) * 256;
    assert TagAt(15) == TagAt(14) * 256;
  }

  /** The number behind the tag, byte by byte. */
  lemma SqueezedIsPacked(f: seq<nat>)
    requires DigitsOf(f, FIELD_RADICES)
    ensures Value(Squeezed(f), BYTE_RADICES) == UUID_FAMILY_TAG + Value(f, FIELD_RADICES)
    ensures Digits(UUID_FAMILY_TAG + Value(f, FIELD_RADICES), BYTE_RADICES) == Squeezed(f)
  {
    hide Squeezed, Digits, Value;
    TailAligns(f, 15);
    TagIsLast();
    assert Squeezed(f)[..16] == Squeezed(f) && BYTE_RADICES[..16] == BYTE_RADICES;
    assert f[..16] == f && FIELD_RADICES[..16] == FIELD_RADICES;
    DigitsOfValue(Squeezed(f), BYTE_RADICES);
  }

  // ----- UUIDs: round trips -----

  lemma UuidRoundTrip(id: Text)
    requires IsUuid(id)
    ensures DigitsOf(PackUuid(id), BYTE_RADICES) && PackUuid(id)[0] >= 128
    ensures UnpackUuid(PackUuid(id)) == Some(id)
  {
    hide Value, Digits, Squeezed, Spread, FormatUuid, Fields, FromFields, UuidBytes;
    var bytes := UuidBytes(id);
    SqueezedIsPacked(Fields(bytes));
    SpreadInvertsSqueezed(Fields(bytes));
    VersionAndVariant(id);
    FormatInvertsBytes(id);
  }

  lemma VersionAndVariant(id: Text)
    requires IsUuid(id)
    ensures UuidBytes(id)[6] / 16 == 7 && UuidBytes(id)[8] / 64 == 2
    ensures FromFields(Fields(UuidBytes(id))) == UuidBytes(id)
  {
    var bytes := UuidBytes(id);
    assert bytes[6] == Hex(id[14]) * 16 + Hex(id[15]) && bytes[8] == Hex(id[19]) * 16 + Hex(id[20]);
  }

  lemma UuidUnpackIsExact(bytes: seq<nat>, id: Text)
    requires DigitsOf(bytes, BYTE_RADICES) && bytes[0] >= 128 && UnpackUuid(bytes) == Some(id)
    ensures IsUuid(id) && PackUuid(id) == bytes
  {
    hide Value, Digits, Squeezed, Spread, Fields, FromFields, IsUuid, FormatUuid, UuidBytes;
    var f := Spread(bytes);
    SqueezedInvertsSpread(bytes);
    BytesInvertFormat(FromFields(f));
    FormattedIsUuid(f);
    FieldsBack(f);
    SqueezedIsPacked(f);
  }

  lemma FieldsBack(f: seq<nat>)
    requires DigitsOf(f, FIELD_RADICES)
    ensures Fields(FromFields(f)) == f
  {
  }

  lemma FormattedIsUuid(f: seq<nat>)
    requires DigitsOf(f, FIELD_RADICES)
    ensures IsUuid(FormatUuid(FromFields(f)))
  {
    var bytes := FromFields(f);
    var id := FormatUuid(bytes);
    assert id[14] == HexUnit(Nibble(bytes, 12)) && id[19] == HexUnit(Nibble(bytes, 16));
    assert Nibble(bytes, 12) == 7 && 8 <= Nibble(bytes, 16) <= 11;
  }

  // ----- packing and unpacking -----

  predicate IsId(id: Text) {
    IsUuid(id) || IsShort(id)
  }

  function Pack(id: Text): Option<seq<nat>> {
    if IsUuid(id) then Some(PackUuid(id))
    else if IsShort(id) then Some(PackShort(id))
    else None
  }

  predicate IsBytes(bytes: seq<nat>) {
    forall i :: 0 <= i < |bytes| ==> bytes[i] < 256
  }

  function Unpack(bytes: seq<nat>): Option<Text>
    requires IsBytes(bytes)
  {
    if |bytes| != DOC_ID_BYTE_LENGTH then None
    else if bytes[0] >= 128 then UnpackUuid(bytes)
    else UnpackShort(bytes)
  }

  /** Every valid id packs into sixteen bytes and comes back. */
  lemma PackRoundTrip(id: Text)
    ensures Pack(id).Some? <==> IsId(id)
    ensures IsId(id) ==> DigitsOf(Pack(id).value, BYTE_RADICES) && Unpack(Pack(id).value) == Some(id)
  {
    if IsUuid(id) {
      UuidRoundTrip(id);
    } else if IsShort(id) {
      ShortRoundTrip(id);
    }
  }

  /** Every accepted value packs back into itself; so packed forms are unique both ways. */
  lemma UnpackRoundTrip(bytes: seq<nat>)
    requires IsBytes(bytes) && Unpack(bytes).Some?
    ensures IsId(Unpack(bytes).value) && Pack(Unpack(bytes).value) == Some(bytes)
  {
    if bytes[0] >= 128 {
      UuidUnpackIsExact(bytes, Unpack(bytes).value);
    } else {
      ShortUnpackIsExact(bytes, Unpack(bytes).value);
    }
  }

  // ----- order -----

  function Family(id: Text): nat {
    if IsUuid(id) then 1 else if IsShort(id) then 0 else 2
  }

  /** The order that stands in for packed byte order. */
  ghost predicate Sorted(a: Text, b: Text) {
    if Family(a) != Family(b) then Family(a) < Family(b) else Before(a, b)
  }

  lemma ShortOrder(a: Text, b: Text)
    requires IsShort(a) && IsShort(b) && Before(a, b)
    ensures Before(PackShort(a), PackShort(b))
  {
    hide Value, Digits;
    var k: nat :| SplitsAt(a, b, k);
    if k < |a| {
      DigitsKeepOrder(a[k], b[k]);
    }
    assert SplitsAt(ShortDigits(a), ShortDigits(b), k);
    OrderIsValue(ShortDigits(a), ShortDigits(b), SHORT_RADICES);
    ShortFits(a);
    ShortFits(b);
    OrderIsValue(PackShort(a), PackShort(b), BYTE_RADICES);
  }

  lemma ShortFits(id: Text)
    ensures Value(PackShort(id), BYTE_RADICES) == Value(ShortDigits(id), SHORT_RADICES) < UUID_FAMILY_TAG
  {
    hide Value, Digits;
    ValueIsBounded(ShortDigits(id), SHORT_RADICES);
    ShortStaysBelowTheTag();
    BytesHoldTheTag();
    FitsIffNothingLeft(Value(ShortDigits(id), SHORT_RADICES), BYTE_RADICES);
  }

  lemma UuidOrder(a: Text, b: Text)
    requires IsUuid(a) && IsUuid(b) && Before(a, b)
    ensures Before(PackUuid(a), PackUuid(b))
  {
    hide Value, Digits, Squeezed;
    var k: nat :| SplitsAt(a, b, k);
    BytesSplit(a, b, k);
    OrderIsValue(Fields(UuidBytes(a)), Fields(UuidBytes(b)), FIELD_RADICES);
    SqueezedIsPacked(Fields(UuidBytes(a)));
    SqueezedIsPacked(Fields(UuidBytes(b)));
    OrderIsValue(PackUuid(a), PackUuid(b), BYTE_RADICES);
  }

  /** The first differing character is a digit, and decides the first differing byte. */
  lemma BytesSplit(a: Text, b: Text, k: nat)
    requires IsUuid(a) && IsUuid(b) && SplitsAt(a, b, k)
    ensures Before(Fields(UuidBytes(a)), Fields(UuidBytes(b)))
  {
    assert !IsDash(k);
    HexKeepsOrder(a[k], b[k]);
    var i := PlainIndex(k) / 2;
    assert Place(PlainIndex(k)) == k;
    SplitInBytes(a, b, PlainIndex(k));
    SplitInFields(a, b, i);
  }

  lemma HexKeepsOrder(x: Unit, y: Unit)
    requires IsHex(x) && IsHex(y) && x < y
    ensures Hex(x) < Hex(y)
  {
  }

  lemma SplitInBytes(a: Text, b: Text, j: nat)
    requires |a| == |b| == 36 && j < 32 && (forall m :: 0 <= m < Place(j) ==> a[m] == b[m]) && Hex(a[Place(j)]) < Hex(b[Place(j)])
    ensures SplitsAt(UuidBytes(a), UuidBytes(b), j / 2)
  {
    hide Place, Hex;
    var i := j / 2;
    forall m | 0 <= m < i
      ensures UuidBytes(a)[m] == UuidBytes(b)[m]
    {
      PlacesInOrder(2 * m, j);
      PlacesInOrder(2 * m + 1, j);
    }
    if j % 2 == 1 {
      PlacesInOrder(j - 1, j);
    }
  }

  lemma SplitInFields(a: Text, b: Text, i: nat)
    requires IsUuid(a) && IsUuid(b) && SplitsAt(UuidBytes(a), UuidBytes(b), i)
    ensures SplitsAt(Fields(UuidBytes(a)), Fields(UuidBytes(b)), i)
  {
    hide IsUuid, UuidBytes;
    VersionAndVariant(a);
    VersionAndVariant(b);
  }

  lemma PlacesInOrder(i: nat, j: nat)
    requires i < j
    ensures Place(i) < Place(j)
  {
  }

  /** Comparing two ids compares their packed bytes, within and across the families. */
  lemma OrderIsPackedOrder(a: Text, b: Text)
    requires IsId(a) && IsId(b)
    ensures Sorted(a, b) <==> Before(Pack(a).value, Pack(b).value)
    ensures a == b <==> Pack(a).value == Pack(b).value
  {
    hide IsUuid, IsShort, PackUuid, PackShort, Unpack, Before;
    PackRoundTrip(a);
    PackRoundTrip(b);
    BeforeIsTotal(a, b);
    if Sorted(a, b) {
      SortedPacksBefore(a, b);
    } else if Sorted(b, a) {
      SortedPacksBefore(b, a);
      BeforeIsAsymmetric(Pack(b).value, Pack(a).value);
    } else {
      NotBeforeItself(Pack(a).value);
    }
  }

  lemma SortedPacksBefore(a: Text, b: Text)
    requires IsId(a) && IsId(b) && Sorted(a, b)
    ensures Before(Pack(a).value, Pack(b).value)
  {
    hide IsUuid, PackUuid, PackShort;
    if IsUuid(a) {
      UuidOrder(a, b);
    } else if IsUuid(b) {
      ShortRoundTrip(a);
      UuidRoundTrip(b);
      assert SplitsAt(PackShort(a), PackUuid(b), 0);
    } else {
      ShortOrder(a, b);
    }
  }

  /** The comparison is a strict total order on all strings, ids or not. */
  lemma SortedIsTotalOrder(a: Text, b: Text, c: Text)
    ensures a == b || Sorted(a, b) || Sorted(b, a)
    ensures Sorted(a, b) ==> a != b && !Sorted(b, a)
    ensures Sorted(a, b) && Sorted(b, c) ==> Sorted(a, c)
  {
    hide IsUuid, IsShort, Before;
    BeforeIsTotal(a, b);
    if Before(a, b) {
      BeforeIsAsymmetric(a, b);
      if Before(b, c) {
        BeforeIsTransitive(a, b, c);
      }
    }
  }
}

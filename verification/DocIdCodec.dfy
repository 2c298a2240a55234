/** The codec as it runs: loops over digits and bytes, and three caches.

    Whatever was asked before, a cached answer is the answer. */
module DocIdCodec {
  import opened Basics
  import opened Radix
  import opened DocIds

  const DOC_ID_CACHE_LIMIT: nat := 4096

  datatype Entry = Entry(packed: seq<nat>, id: Text)

  // ----- the loops -----

  /** Horner's rule over the id's digits, padded with zeros. */
  method ShortValue(id: Text) returns (value: nat)
    ensures value == Value(ShortDigits(id), SHORT_RADICES)
  {
    hide Value;
    ghost var d := ShortDigits(id);
    value := 0;
    assert d[..0] == [] && SHORT_RADICES[..0] == [];
    NoValue();
    for i := 0 to 24
      invariant value == Value(d[..i], SHORT_RADICES[..i])
    {
      var digit := if i < |id| then DigitOf(id[i]) else 0;
      ValueStep(d, SHORT_RADICES, i);
      value := value * SHORT_BASE + digit;
    }
    assert d[..24] == d && SHORT_RADICES[..24] == SHORT_RADICES;
  }

  lemma NoValue()
    ensures Value([], []) == 0
  {
  }

  /** Digits from the end, and what is left. */
  method TakeDigits(value: nat, b: Positive, n: nat) returns (digits: seq<nat>, remaining: nat)
    ensures digits == Digits(value, Uniform(n, b)) && remaining == Rest(value, Uniform(n, b))
  {
    hide Digits, Rest;
    var a := new nat[n](_ => 0);
    remaining := value;
    ghost var r := Uniform(n, b);
    var i := n;
    assert r[..n] == r;
    while i > 0
      invariant 0 <= i <= n && fresh(a) && a.Length == n
      invariant Digits(value, r) == Digits(remaining, r[..i]) + a[i..] && Rest(value, r) == Rest(remaining, r[..i])
    {
      i := i - 1;
      assert r[..i + 1][..i] == r[..i];
      DigitsUnfold(remaining, r[..i + 1]);
      ghost var behind := a[i + 1..];
      a[i] := remaining % b;
      remaining := remaining / b;
      assert a[i..] == [a[i]] + behind;
    }
    NoDigits(remaining);
    assert r[..0] == [] && a[0..] == a[..];
    digits := a[..];
  }

  lemma NoDigits(v: nat)
    ensures Digits(v, []) == [] && Rest(v, []) == v
  {
  }

  /** The packed value of a valid id. */
  method PackDocId(id: Text) returns (packed: Option<seq<nat>>)
    ensures packed == Pack(id)
  {
    if IsUuid(id) {
      var payload := UuidPayload(UuidBytes(id));
      var bytes, left := TakeDigits(UUID_FAMILY_TAG + payload, 256, 16);
      return Some(bytes);
    }
    if IsShort(id) {
      var value := ShortValue(id);
      var bytes, left := TakeDigits(value, 256, 16);
      return Some(bytes);
    }
    return None;
  }

  /** Shift the parts in one after another, without version and variant. */
  method UuidPayload(bytes: seq<nat>) returns (payload: nat)
    requires DigitsOf(bytes, BYTE_RADICES)
    ensures payload == Value(Fields(bytes), FIELD_RADICES)
  {
    hide Value;
    ghost var f := Fields(bytes);
    assert f[..0] == [] && FIELD_RADICES[..0] == [];
    NoValue();
    payload := 0;
    for i := 0 to 6
      invariant payload == Value(f[..i], FIELD_RADICES[..i])
    {
      ValueStep(f, FIELD_RADICES, i);
      payload := payload * 256 + bytes[i];
    }
    ValueStep(f, FIELD_RADICES, 6);
    payload := payload * 16 + bytes[6] % 16;
    ValueStep(f, FIELD_RADICES, 7);
    payload := payload * 256 + bytes[7];
    ValueStep(f, FIELD_RADICES, 8);
    payload := payload * 64 + bytes[8] % 64;
    for i := 9 to 16
      invariant payload == Value(f[..i], FIELD_RADICES[..i])
    {
      ValueStep(f, FIELD_RADICES, i);
      payload := payload * 256 + bytes[i];
    }
    assert f[..16] == f && FIELD_RADICES[..16] == FIELD_RADICES;
  }

  method BytesValue(bytes: seq<nat>) returns (value: nat)
    requires DigitsOf(bytes, BYTE_RADICES)
    ensures value == Value(bytes, BYTE_RADICES)
  {
    hide Value;
    value := 0;
    NoValue();
    assert bytes[..0] == [] && BYTE_RADICES[..0] == [];
    for i := 0 to 16
      invariant value == Value(bytes[..i], BYTE_RADICES[..i])
    {
      ValueStep(bytes, BYTE_RADICES, i);
      value := value * 256 + bytes[i];
    }
    assert bytes[..16] == bytes && BYTE_RADICES[..16] == BYTE_RADICES;
  }

  /** Refuse what is left over, an empty id, and a digit after the end. */
  method DecodeShort(bytes: seq<nat>) returns (id: Option<Text>)
    requires DigitsOf(bytes, BYTE_RADICES)
    ensures id == UnpackShort(bytes)
  {
    hide Value, Digits, Rest;
    var value := BytesValue(bytes);
    var digits, remaining := TakeDigits(value, SHORT_BASE, 24);
    if remaining != 0 || digits[0] == 0 {
      return None;
    }
    var result: Text := [];
    var seenEnd := false;
    for i := 0 to 24
      invariant |result| <= i && (forall k :: 0 <= k < |result| ==> digits[k] != 0 && result[k] == UnitOf(digits[k]))
      invariant forall k :: |result| <= k < i ==> digits[k] == 0
      invariant seenEnd <==> |result| < i
    {
      if digits[i] == 0 {
        seenEnd := true;
      } else {
        if seenEnd {
          LeadIs(digits, |result|);
          return None;
        }
        result := result + [UnitOf(digits[i])];
      }
    }
    LeadIs(digits, |result|);
    assert UnpackShort(bytes).Some? && UnpackShort(bytes).value == result;
    return Some(result);
  }

  // ----- the caches -----

  /** Exclusive or of the low bits. */
  function Xor(a: nat, b: nat, bits: nat): nat {
    if bits == 0 then 0 else (a + b) % 2 + 2 * Xor(a / 2, b / 2, bits - 1)
  }

  function Power(n: nat): nat {
    if n == 0 then 1 else 2 * Power(n - 1)
  }

  lemma {:induction false} XorIsBounded(a: nat, b: nat, bits: nat)
    ensures Xor(a, b, bits) < Power(bits)
  {
    if bits > 0 {
      XorIsBounded(a / 2, b / 2, bits - 1);
    }
  }

  /** Which slot of the short cache a packed value goes to. */
  function ShortSlot(bytes: seq<nat>): (slot: nat)
    requires |bytes| == 16
    ensures slot < DOC_ID_CACHE_LIMIT
  {
    var low := Xor(bytes[0] * 256 + bytes[1], bytes[6] * 256 + bytes[7], 12);
    XorIsBounded(low, bytes[12] * 256 + bytes[13], 12);
    assert Power(12) == 4096;
    Xor(low, bytes[12] * 256 + bytes[13], 12)
  }

  function UuidSlot(bytes: seq<nat>): (slot: nat)
    requires |bytes| == 16
    ensures slot < DOC_ID_CACHE_LIMIT
  {
    (bytes[14] * 256 + bytes[15]) % DOC_ID_CACHE_LIMIT
  }

  class Codec {
    const shortHot: array<Option<Entry>>
    const primary: array<Option<Entry>>
    const secondary: array<Option<Entry>>
    var families: map<Text, nat>
    /** The cached ids in the order they were added. */
    var familyOrder: seq<Text>

    /** A cached entry is a true answer. */
    static predicate True(entry: Option<Entry>) {
      entry.Some? ==> IsBytes(entry.value.packed) && Unpack(entry.value.packed) == Some(entry.value.id)
    }

    ghost predicate Valid()
      reads this, shortHot, primary, secondary
    {
      shortHot != primary && shortHot != secondary && primary != secondary &&
      shortHot.Length == primary.Length == secondary.Length == DOC_ID_CACHE_LIMIT &&
      (forall i :: 0 <= i < DOC_ID_CACHE_LIMIT ==> True(shortHot[i])) &&
      (forall i :: 0 <= i < DOC_ID_CACHE_LIMIT ==> True(primary[i])) &&
      (forall i :: 0 <= i < DOC_ID_CACHE_LIMIT ==> True(secondary[i])) &&
      (forall id :: id in families <==> id in familyOrder) && |familyOrder| <= DOC_ID_CACHE_LIMIT &&
      (forall i, j :: 0 <= i < j < |familyOrder| ==> familyOrder[i] != familyOrder[j]) &&
      forall id :: id in families ==> families[id] == Family(id)
    }

    constructor ()
      ensures Valid() && fresh(shortHot) && fresh(primary) && fresh(secondary)
    {
      shortHot := new Option<Entry>[DOC_ID_CACHE_LIMIT](_ => None);
      primary := new Option<Entry>[DOC_ID_CACHE_LIMIT](_ => None);
      secondary := new Option<Entry>[DOC_ID_CACHE_LIMIT](_ => None);
      families, familyOrder := map[], [];
    }

    /** A hit needs all sixteen bytes equal. */
    static method Lookup(packed: seq<nat>, entry: Option<Entry>) returns (id: Option<Text>)
      requires True(entry) && |packed| == 16
      ensures id.Some? ==> IsBytes(packed) && Unpack(packed) == id
    {
      hide Unpack;
      if entry.None? || |entry.value.packed| != 16 {
        return None;
      }
      for i := 0 to 16
        invariant packed[..i] == entry.value.packed[..i]
      {
        if packed[i] != entry.value.packed[i] {
          return None;
        }
      }
      assert packed == packed[..16] && entry.value.packed == entry.value.packed[..16];
      return Some(entry.value.id);
    }

    /** A two-way cache: the previous primary moves over on a miss. */
    method DecodeUuid(packed: seq<nat>) returns (id: Option<Text>)
      requires Valid() && DigitsOf(packed, BYTE_RADICES) && packed[0] >= 128
      modifies primary, secondary
      ensures Valid() && id == Unpack(packed)
    {
      hide UnpackUuid, UnpackShort, Family;
      if packed[0] / 4 % 32 != 0 {
        ReservedBitsRefused(packed);
        return None;
      }
      var slot := UuidSlot(packed);
      id := Lookup(packed, primary[slot]);
      if id.Some? {
        return;
      }
      id := Lookup(packed, secondary[slot]);
      if id.Some? {
        return;
      }
      var text := FormatUuid(FromFields(Spread(packed)));
      UnpackedText(packed);
      secondary[slot] := primary[slot];
      primary[slot] := Some(Entry(packed, text));
      return Some(text);
    }

    /** Unpacking gives the true answer whatever the caches hold. */
    method UnpackDocId(bytes: seq<nat>) returns (id: Option<Text>)
      requires Valid() && IsBytes(bytes)
      modifies shortHot, primary, secondary
      ensures Valid() && id == Unpack(bytes)
    {
      hide UnpackUuid, UnpackShort, Family;
      if |bytes| != DOC_ID_BYTE_LENGTH {
        return None;
      }
      if bytes[0] >= 128 {
        id := DecodeUuid(bytes);
        return;
      }
      var slot := ShortSlot(bytes);
      id := Lookup(bytes, shortHot[slot]);
      if id.Some? {
        return;
      }
      id := DecodeShort(bytes);
      if id.Some? {
        shortHot[slot] := Some(Entry(bytes, id.value));
      }
    }

    /** The family of an id, remembered first in, first out. */
    method SortFamily(id: Text) returns (family: nat)
      requires Valid()
      modifies this`families, this`familyOrder
      ensures Valid() && family == Family(id)
    {
      hide IsUuid, IsShort, Unpack;
      if id in families {
        return families[id];
      }
      family := if IsUuid(id) then 1 else if IsShort(id) then 0 else 2;
      if |familyOrder| >= DOC_ID_CACHE_LIMIT {
        var first := familyOrder[0];
        families, familyOrder := families - {first}, familyOrder[1..];
      }
      families, familyOrder := families[id := family], familyOrder + [id];
    }

    /** Sign of the order of two ids; for valid ones the order of their packed bytes. */
    method CompareDocIds(a: Text, b: Text) returns (sign: int)
      requires Valid()
      modifies this`families, this`familyOrder
      ensures Valid() && (sign < 0 <==> Sorted(a, b)) && (sign > 0 <==> Sorted(b, a)) && (sign == 0 <==> a == b)
      ensures IsId(a) && IsId(b) ==>
        (sign < 0 <==> Before(Pack(a).value, Pack(b).value)) && (sign > 0 <==> Before(Pack(b).value, Pack(a).value))
    {
      hide IsUuid, IsShort, Before, Pack, Unpack;
      var aFamily := SortFamily(a);
      var bFamily := SortFamily(b);
      SortedIsTotalOrder(a, b, b);
      SortedIsTotalOrder(b, a, a);
      if IsId(a) && IsId(b) {
        OrderIsPackedOrder(a, b);
        OrderIsPackedOrder(b, a);
      }
      if aFamily != bFamily {
        return (aFamily as int) - (bFamily as int);
      }
      sign := CompareTexts(a, b);
    }
  }

  lemma ReservedBitsRefused(packed: seq<nat>)
    requires DigitsOf(packed, BYTE_RADICES) && packed[0] >= 128 && packed[0] / 4 % 32 != 0
    ensures Unpack(packed) == None
  {
  }

  lemma UnpackedText(packed: seq<nat>)
    requires DigitsOf(packed, BYTE_RADICES) && packed[0] >= 128 && packed[0] / 4 % 32 == 0
    ensures Unpack(packed) == Some(FormatUuid(FromFields(Spread(packed))))
  {
    hide FormatUuid, FromFields, Spread;
  }
}

/** Nested values as flat fields: keys joined with "__", and sparse arrays of field indexes.

    Joining and splitting are inverse exactly for clean paths, and a nested value comes
    back from its flat form, and from its sparse encoding, when all its paths are clean. */
module FieldPaths {
  import opened Basics
  import opened OrderedMaps

  const UNDERSCORE: Unit := 95

  // ----- joining and splitting -----

  function Join(segments: seq<Text>): Text
    decreases |segments|
  {
    if segments == [] then []
    else if |segments| == 1 then segments[0]
    else segments[0] + [UNDERSCORE, UNDERSCORE] + Join(segments[1..])
  }

  /** The delimiter stands at i. */
  predicate DelimiterAt(s: Text, i: nat) {
    i + 1 < |s| && s[i] == UNDERSCORE && s[i + 1] == UNDERSCORE
  }

  /** Where the first delimiter at or after `from` stands; |s| if there is none. */
  function FirstDelimiter(s: Text, from: nat): (i: nat)
    requires from <= |s|
    ensures from <= i <= |s| && (i < |s| ==> DelimiterAt(s, i)) && forall k: nat :: from <= k < i ==> !DelimiterAt(s, k)
    decreases |s| - from
  {
    if from == |s| || DelimiterAt(s, from) then from else FirstDelimiter(s, from + 1)
  }

  /** Split on "__", leftmost first. */
  function Split(s: Text): (segments: seq<Text>)
    ensures segments != []
    decreases |s|
  {
    var i := FirstDelimiter(s, 0);
    if i == |s| then [s] else [s[..i]] + Split(s[i + 2..])
  }

  predicate NoDelimiter(s: Text) {
    forall i: nat :: i < |s| ==> !DelimiterAt(s, i)
  }

  predicate EndsOpen(s: Text) {
    s != [] && s[|s| - 1] == UNDERSCORE
  }

  /** No segment holds the delimiter, and none but the last ends in half of one. */
  predicate Clean(segments: seq<Text>) {
    segments != [] && (forall k :: 0 <= k < |segments| ==> NoDelimiter(segments[k])) &&
    forall k :: 0 <= k < |segments| - 1 ==> !EndsOpen(segments[k])
  }

  lemma {:induction false} JoinInvertsSplit(s: Text)
    ensures Join(Split(s)) == s
    decreases |s|
  {
    var i := FirstDelimiter(s, 0);
    if i < |s| {
      JoinInvertsSplit(s[i + 2..]);
      var rest := Split(s[i + 2..]);
      assert ([s[..i]] + rest)[1..] == rest;
      assert s == s[..i] + [UNDERSCORE, UNDERSCORE] + s[i + 2..];
    }
  }

  /** What splitting yields is always clean. */
  lemma {:induction false} SplitIsClean(s: Text)
    ensures Clean(Split(s))
    decreases |s|
  {
    var i := FirstDelimiter(s, 0);
    if i < |s| {
      var rest := Split(s[i + 2..]);
      SplitIsClean(s[i + 2..]);
      assert NoDelimiter(s[..i]) by {
        assert forall k: nat :: k < i && DelimiterAt(s[..i], k) ==> DelimiterAt(s, k);
      }
      assert !EndsOpen(s[..i]) by {
        assert i > 0 ==> !DelimiterAt(s, i - 1);
      }
      var all := [s[..i]] + rest;
      assert forall k :: 1 <= k < |all| ==> all[k] == rest[k - 1];
    }
  }

  /** The first delimiter of a join is the one put there. */
  lemma FirstOfJoin(head: Text, tail: Text)
    requires NoDelimiter(head) && !EndsOpen(head)
    ensures FirstDelimiter(head + [UNDERSCORE, UNDERSCORE] + tail, 0) == |head|
  {
    var s := head + [UNDERSCORE, UNDERSCORE] + tail;
    assert DelimiterAt(s, |head|);
    forall k: nat | k < |head|
      ensures !DelimiterAt(s, k)
    {
      assert !DelimiterAt(head, k);
    }
  }

  lemma {:induction false} SplitInvertsJoin(segments: seq<Text>)
    requires Clean(segments)
    ensures Split(Join(segments)) == segments
    decreases |segments|
  {
    if |segments| == 1 {
      var i := FirstDelimiter(segments[0], 0);
    } else {
      var head, tail := segments[0], segments[1..];
      assert Clean(tail) by {
        assert forall k :: 0 <= k < |tail| ==> tail[k] == segments[k + 1];
      }
      SplitInvertsJoin(tail);
      FirstOfJoin(head, Join(tail));
      var s := head + [UNDERSCORE, UNDERSCORE] + Join(tail);
      assert s[..|head|] == head && s[|head| + 2..] == Join(tail);
    }
  }

  /** Joined segments split back into themselves exactly when they are clean. */
  lemma SplitInvertsJoinExactly(segments: seq<Text>)
    requires segments != []
    ensures Split(Join(segments)) == segments <==> Clean(segments)
  {
    SplitIsClean(Join(segments));
    if Clean(segments) {
      SplitInvertsJoin(segments);
    }
  }

  lemma {:induction false} JoinNests(a: seq<Text>, b: seq<Text>)
    requires a != [] && b != []
    ensures Join([Join(a)] + b) == Join(a + b)
    decreases |a|
  {
    assert ([Join(a)] + b)[1..] == b;
    if |a| == 1 {
      assert [Join(a)] + b == a + b;
    } else {
      JoinNests(a[1..], b);
      assert (a + b)[1..] == a[1..] + b;
      assert ([Join(a[1..])] + b)[1..] == b;
      assert a[0] + [UNDERSCORE, UNDERSCORE] + (Join(a[1..]) + [UNDERSCORE, UNDERSCORE] + Join(b)) ==
        a[0] + [UNDERSCORE, UNDERSCORE] + Join(a[1..]) + [UNDERSCORE, UNDERSCORE] + Join(b);
    }
  }

  // ----- nested values -----

  /** A value that is not split up further, or an object with its fields in order. */
  datatype Json<V> = Leaf(value: V) | Obj(fields: Fields<V>)

  datatype Fields<V> = End | Field(key: Text, value: Json<V>, rest: Fields<V>)

  function Get<V>(f: Fields<V>, key: Text): Option<Json<V>> {
    if f.End? then None else if f.key == key then Some(f.value) else Get(f.rest, key)
  }

  function Set<V>(f: Fields<V>, key: Text, value: Json<V>): Fields<V> {
    if f.End? then Field(key, value, End)
    else if f.key == key then f.(value := value)
    else f.(rest := Set(f.rest, key, value))
  }

  function Append<V>(f: Fields<V>, key: Text, value: Json<V>): Fields<V> {
    if f.End? then Field(key, value, End) else f.(rest := Append(f.rest, key, value))
  }

  function Concat<V>(f: Fields<V>, more: Fields<V>): Fields<V> {
    if f.End? then more else f.(rest := Concat(f.rest, more))
  }

  /** Objects hold each key once. */
  predicate Proper<V>(f: Fields<V>) {
    f.End? || (Get(f.rest, f.key).None? && Proper(f.rest) && (f.value.Obj? ==> Proper(f.value.fields)))
  }

  /** Nested objects are not empty. */
  predicate NoEmpty<V>(f: Fields<V>) {
    f.End? || (NoEmpty(f.rest) && (f.value.Obj? ==> f.value.fields.Field? && NoEmpty(f.value.fields)))
  }

  // ----- flattening -----

  function MergeAll<V>(flat: seq<(Text, V)>, more: seq<(Text, V)>): seq<(Text, V)>
    decreases |more|
  {
    if more == [] then flat else MergeAll(Put(flat, more[0].0, more[0].1), more[1..])
  }

  function FullKey(prefix: Text, key: Text): Text {
    if prefix != [] then Join([prefix, key]) else key
  }

  /** The loop over an object's keys, with what is flat already. */
  function FlattenInto<V>(f: Fields<V>, prefix: Text, flat: seq<(Text, V)>): seq<(Text, V)>
    decreases f
  {
    if f.End? then flat
    else
      var key := FullKey(prefix, f.key);
      match f.value
      case Leaf(v) => FlattenInto(f.rest, prefix, Put(flat, key, v))
      case Obj(sub) => FlattenInto(f.rest, prefix, MergeAll(flat, FlattenInto(sub, key, [])))
  }

  function Flatten<V>(f: Fields<V>): seq<(Text, V)> {
    FlattenInto(f, [], [])
  }

  // ----- rebuilding -----

  function SetDeep<V>(f: Fields<V>, parts: seq<Text>, value: V): Fields<V>
    decreases |parts|
  {
    if parts == [] then f
    else if |parts| == 1 then Set(f, parts[0], Leaf(value))
    else
      var child := Get(f, parts[0]);
      var sub := if child.Some? && child.value.Obj? then child.value.fields else End;
      Set(f, parts[0], Obj(SetDeep(sub, parts[1..], value)))
  }

  function UnflattenInto<V>(f: Fields<V>, flat: seq<(Text, V)>): Fields<V>
    decreases |flat|
  {
    if flat == [] then f else UnflattenInto(SetDeep(f, Split(flat[0].0), flat[0].1), flat[1..])
  }

  function Unflatten<V>(flat: seq<(Text, V)>): Fields<V> {
    UnflattenInto(End, flat)
  }

  // ----- the leaves of a value and their paths -----

  type Leaves<V> = seq<(seq<Text>, V)>

  function Behind<V>(key: Text, leaves: Leaves<V>): (r: Leaves<V>)
    ensures |r| == |leaves|
  {
    seq(|leaves|, i requires 0 <= i < |leaves| => ([key] + leaves[i].0, leaves[i].1))
  }

  function LeavesOf<V>(f: Fields<V>): Leaves<V> {
    if f.End? then []
    else
      (match f.value case Leaf(v) => [([f.key], v)] case Obj(sub) => Behind(f.key, LeavesOf(sub))) + LeavesOf(f.rest)
  }

  /** Set each leaf in turn. */
  function Plant<V>(f: Fields<V>, leaves: Leaves<V>): Fields<V>
    decreases |leaves|
  {
    if leaves == [] then f else Plant(SetDeep(f, leaves[0].0, leaves[0].1), leaves[1..])
  }

  // ----- objects -----

  lemma {:induction false} SetGets<V>(f: Fields<V>, key: Text, value: Json<V>, k: Text)
    ensures Get(Set(f, key, value), k) == if k == key then Some(value) else Get(f, k)
  {
    if f.Field? {
      SetGets(f.rest, key, value, k);
    }
  }

  lemma {:induction false} AppendIs<V>(f: Fields<V>, key: Text, value: Json<V>, more: Json<V>)
    requires Get(f, key).None?
    ensures Set(f, key, value) == Append(f, key, value)
    ensures Get(Append(f, key, value), key) == Some(value) && Set(Append(f, key, value), key, more) == Append(f, key, more)
  {
    if f.Field? {
      AppendIs(f.rest, key, value, more);
    }
  }

  lemma {:induction false} AppendGets<V>(f: Fields<V>, key: Text, value: Json<V>, k: Text)
    ensures Get(Append(f, key, value), k).Some? <==> Get(f, k).Some? || k == key
  {
    if f.Field? {
      AppendGets(f.rest, key, value, k);
    }
  }

  lemma {:induction false} ConcatAppended<V>(f: Fields<V>, key: Text, value: Json<V>, more: Fields<V>)
    ensures Concat(Append(f, key, value), more) == Concat(f, Field(key, value, more))
  {
    if f.Field? {
      ConcatAppended(f.rest, key, value, more);
    }
  }

  // ----- planting the leaves rebuilds the value -----

  predicate Rooted<V>(leaves: Leaves<V>) {
    forall i :: 0 <= i < |leaves| ==> leaves[i].0 != []
  }

  lemma {:induction false} LeavesAreRooted<V>(f: Fields<V>)
    ensures Rooted(LeavesOf(f))
    ensures forall i :: 0 <= i < |LeavesOf(f)| ==> Get(f, LeavesOf(f)[i].0[0]).Some?
  {
    if f.Field? {
      LeavesAreRooted(f.rest);
      var first := match f.value case Leaf(v) => [([f.key], v)] case Obj(sub) => Behind(f.key, LeavesOf(sub));
      forall i | 0 <= i < |LeavesOf(f)|
        ensures LeavesOf(f)[i].0 != [] && Get(f, LeavesOf(f)[i].0[0]).Some?
      {
        if i >= |first| {
          assert LeavesOf(f)[i] == LeavesOf(f.rest)[i - |first|];
        }
      }
    }
  }

  lemma {:induction false} NonemptyHasLeaves<V>(f: Fields<V>)
    requires f.Field? && NoEmpty(f)
    ensures LeavesOf(f) != []
    decreases f
  {
    if f.value.Obj? {
      NonemptyHasLeaves(f.value.fields);
    }
  }

  lemma {:induction false} PlantSplits<V>(f: Fields<V>, a: Leaves<V>, b: Leaves<V>)
    ensures Plant(f, a + b) == Plant(Plant(f, a), b)
    decreases |a|
  {
    if a == [] {
      assert a + b == b;
    } else {
      assert (a + b)[1..] == a[1..] + b;
      PlantSplits(SetDeep(f, a[0].0, a[0].1), a[1..], b);
    }
  }

  /** Leaves behind a key are planted in its object. */
  lemma {:induction false} PlantBehind<V>(f: Fields<V>, key: Text, sub: Fields<V>, leaves: Leaves<V>)
    requires Get(f, key).None? && Rooted(leaves)
    ensures Plant(Append(f, key, Obj(sub)), Behind(key, leaves)) == Append(f, key, Obj(Plant(sub, leaves)))
    decreases |leaves|
  {
    if leaves != [] {
      var path, v := leaves[0].0, leaves[0].1;
      var next := SetDeep(sub, path, v);
      AppendIs(f, key, Obj(sub), Obj(next));
      assert ([key] + path)[1..] == path;
      assert Behind(key, leaves)[1..] == Behind(key, leaves[1..]);
      PlantBehind(f, key, next, leaves[1..]);
    }
  }

  lemma PlantNewObject<V>(f: Fields<V>, key: Text, leaves: Leaves<V>)
    requires Get(f, key).None? && Rooted(leaves) && leaves != []
    ensures Plant(f, Behind(key, leaves)) == Append(f, key, Obj(Plant(End, leaves)))
  {
    var path, v := leaves[0].0, leaves[0].1;
    var next := SetDeep(End, path, v);
    AppendIs(f, key, Obj(next), Obj(next));
    assert ([key] + path)[1..] == path;
    assert Behind(key, leaves)[1..] == Behind(key, leaves[1..]);
    PlantBehind(f, key, next, leaves[1..]);
  }

  ghost predicate Apart<V>(f: Fields<V>, more: Fields<V>) {
    forall k :: Get(more, k).Some? ==> Get(f, k).None?
  }

  lemma {:induction false} PlantingRebuilds<V>(f: Fields<V>, more: Fields<V>)
    requires Proper(more) && NoEmpty(more) && Apart(f, more)
    ensures Plant(f, LeavesOf(more)) == Concat(f, more)
    decreases more
  {
    if more.End? {
      ConcatEnd(f);
    } else {
      var key := more.key;
      assert Get(more, key).Some?;
      AppendIs(f, key, more.value, more.value);
      var first := match more.value case Leaf(v) => [([key], v)] case Obj(sub) => Behind(key, LeavesOf(sub));
      PlantSplits(f, first, LeavesOf(more.rest));
      if more.value.Obj? {
        PlantingRebuilds(End, more.value.fields);
        NonemptyHasLeaves(more.value.fields);
        LeavesAreRooted(more.value.fields);
        PlantNewObject(f, key, LeavesOf(more.value.fields));
      } else {
        assert first[1..] == [];
      }
      assert Plant(f, first) == Append(f, key, more.value);
      forall k | Get(more.rest, k).Some?
        ensures Get(Append(f, key, more.value), k).None?
      {
        assert Get(more, k).Some?;
        AppendGets(f, key, more.value, k);
      }
      PlantingRebuilds(Append(f, key, more.value), more.rest);
      ConcatAppended(f, key, more.value, more.rest);
    }
  }

  lemma {:induction false} ConcatEnd<V>(f: Fields<V>)
    ensures Concat(f, End) == f
  {
    if f.Field? {
      ConcatEnd(f.rest);
    }
  }

  // ----- flattening lists the leaves -----

  function Keyed<V>(prefix: seq<Text>, leaves: Leaves<V>): (r: seq<(Text, V)>)
    ensures |r| == |leaves|
  {
    seq(|leaves|, i requires 0 <= i < |leaves| => (Join(prefix + leaves[i].0), leaves[i].1))
  }

  lemma {:induction false} MergingAppends<V>(flat: seq<(Text, V)>, more: seq<(Text, V)>)
    requires DistinctKeys(flat + more)
    ensures MergeAll(flat, more) == flat + more
    decreases |more|
  {
    if more != [] {
      FindIs(flat, more[0].0);
      assert (forall i :: 0 <= i < |flat| ==> flat[i] == (flat + more)[i]) && more[0] == (flat + more)[|flat|];
      PutKeys(flat, more[0].0, more[0].1);
      assert flat + [more[0]] + more[1..] == flat + more;
      MergingAppends(flat + [more[0]], more[1..]);
    }
  }

  /** No object stands under the empty key at the top. */
  predicate NoBareObject<V>(f: Fields<V>) {
    f.End? || ((f.key == [] ==> f.value.Leaf?) && NoBareObject(f.rest))
  }

  lemma FullKeyIs(prefix: seq<Text>, key: Text)
    requires prefix != [] ==> Join(prefix) != []
    ensures FullKey(if prefix == [] then [] else Join(prefix), key) == Join(prefix + [key])
    ensures prefix != [] || key != [] ==> Join(prefix + [key]) != []
  {
    if prefix == [] {
      assert prefix + [key] == [key];
    } else {
      JoinNests(prefix, [key]);
      assert [Join(prefix)] + [key] == [Join(prefix), key];
    }
  }

  /** Flattening lists the leaves under their joined paths, as long as those are distinct. */
  lemma {:induction false} FlatteningLists<V>(f: Fields<V>, prefix: seq<Text>, flat: seq<(Text, V)>)
    requires DistinctKeys(flat + Keyed(prefix, LeavesOf(f)))
    requires if prefix == [] then NoBareObject(f) else Join(prefix) != []
    ensures FlattenInto(f, if prefix == [] then [] else Join(prefix), flat) == flat + Keyed(prefix, LeavesOf(f))
    decreases f
  {
    hide Join;
    if f.End? {
      assert flat + Keyed(prefix, LeavesOf(f)) == flat;
    } else {
      var at := prefix + [f.key];
      FullKeyIs(prefix, f.key);
      var first := match f.value case Leaf(v) => [([f.key], v)] case Obj(sub) => Behind(f.key, LeavesOf(sub));
      var mine, others := Keyed(prefix, first), Keyed(prefix, LeavesOf(f.rest));
      assert Keyed(prefix, LeavesOf(f)) == mine + others;
      assert flat + (mine + others) == flat + mine + others;
      DistinctParts(flat, mine, others);
      match f.value
      case Leaf(v) =>
        assert mine == [(Join(at), v)];
        MergingAppends(flat, mine);
        assert mine[1..] == [];
        FlatteningLists(f.rest, prefix, flat + mine);
      case Obj(sub) =>
        KeyedBehind(prefix, f.key, LeavesOf(sub));
        assert [] + mine == mine;
        FlatteningLists(sub, at, []);
        MergingAppends(flat, mine);
        FlatteningLists(f.rest, prefix, flat + mine);
    }
  }

  lemma KeyedBehind<V>(prefix: seq<Text>, key: Text, leaves: Leaves<V>)
    ensures Keyed(prefix, Behind(key, leaves)) == Keyed(prefix + [key], leaves)
  {
    hide Join;
    forall i | 0 <= i < |leaves|
      ensures Keyed(prefix, Behind(key, leaves))[i] == Keyed(prefix + [key], leaves)[i]
    {
      assert prefix + ([key] + leaves[i].0) == prefix + [key] + leaves[i].0;
    }
  }

  lemma DistinctParts<V>(a: seq<(Text, V)>, b: seq<(Text, V)>, c: seq<(Text, V)>)
    requires DistinctKeys(a + b + c)
    ensures DistinctKeys(a + b) && DistinctKeys(b)
  {
    assert forall i :: 0 <= i < |a + b| ==> (a + b)[i] == (a + b + c)[i];
    assert forall i :: 0 <= i < |b| ==> b[i] == (a + b + c)[|a| + i];
  }

  // ----- clean paths -----

  /** No key holds the delimiter, and no object's key ends in half of one. */
  predicate Tidy<V>(f: Fields<V>) {
    f.End? ||
    (NoDelimiter(f.key) && Tidy(f.rest) && (f.value.Obj? ==> !EndsOpen(f.key) && Tidy(f.value.fields)))
  }

  lemma {:induction false} TidyPathsAreClean<V>(f: Fields<V>)
    requires Tidy(f)
    ensures forall i :: 0 <= i < |LeavesOf(f)| ==> Clean(LeavesOf(f)[i].0)
    decreases f
  {
    if f.Field? {
      TidyPathsAreClean(f.rest);
      var first := match f.value case Leaf(v) => [([f.key], v)] case Obj(sub) => Behind(f.key, LeavesOf(sub));
      if f.value.Obj? {
        TidyPathsAreClean(f.value.fields);
      }
      forall i | 0 <= i < |LeavesOf(f)|
        ensures Clean(LeavesOf(f)[i].0)
      {
        if i >= |first| {
          assert LeavesOf(f)[i] == LeavesOf(f.rest)[i - |first|];
        } else if f.value.Obj? {
          CleanBehind(f.key, LeavesOf(f.value.fields)[i].0);
        }
      }
    }
  }

  lemma CleanBehind(key: Text, path: seq<Text>)
    requires NoDelimiter(key) && !EndsOpen(key) && Clean(path)
    ensures Clean([key] + path)
  {
    var all := [key] + path;
    assert forall k :: 1 <= k < |all| ==> all[k] == path[k - 1];
  }

  /** Different leaves have different paths. */
  lemma {:induction false} PathsDiffer<V>(f: Fields<V>)
    requires Proper(f)
    ensures forall i, j :: 0 <= i < j < |LeavesOf(f)| ==> LeavesOf(f)[i].0 != LeavesOf(f)[j].0
    decreases f
  {
    if f.Field? {
      PathsDiffer(f.rest);
      LeavesAreRooted(f.rest);
      var first := match f.value case Leaf(v) => [([f.key], v)] case Obj(sub) => Behind(f.key, LeavesOf(sub));
      if f.value.Obj? {
        PathsDiffer(f.value.fields);
      }
      var all := LeavesOf(f);
      forall i, j | 0 <= i < j < |all|
        ensures all[i].0 != all[j].0
      {
        if i >= |first| {
          assert all[i] == LeavesOf(f.rest)[i - |first|] && all[j] == LeavesOf(f.rest)[j - |first|];
        } else if j >= |first| {
          assert all[j] == LeavesOf(f.rest)[j - |first|];
          assert all[i].0[0] == f.key;
        } else if f.value.Obj? {
          var sub := LeavesOf(f.value.fields);
          assert ([f.key] + sub[i].0)[1..] == sub[i].0 && ([f.key] + sub[j].0)[1..] == sub[j].0;
        }
      }
    }
  }

  lemma KeysAreDistinct<V>(f: Fields<V>)
    requires Proper(f) && Tidy(f)
    ensures DistinctKeys(Keyed([], LeavesOf(f)))
  {
    hide Join, Split;
    PathsDiffer(f);
    TidyPathsAreClean(f);
    var leaves := LeavesOf(f);
    forall i, j | 0 <= i < j < |leaves|
      ensures Keyed([], leaves)[i].0 != Keyed([], leaves)[j].0
    {
      assert [] + leaves[i].0 == leaves[i].0 && [] + leaves[j].0 == leaves[j].0;
      SplitInvertsJoin(leaves[i].0);
      SplitInvertsJoin(leaves[j].0);
    }
  }

  lemma {:induction false} UnflatteningPlants<V>(f: Fields<V>, leaves: Leaves<V>)
    requires forall i :: 0 <= i < |leaves| ==> Clean(leaves[i].0)
    ensures UnflattenInto(f, Keyed([], leaves)) == Plant(f, leaves)
    decreases |leaves|
  {
    hide Join, Split, Clean;
    if leaves != [] {
      assert [] + leaves[0].0 == leaves[0].0;
      SplitInvertsJoin(leaves[0].0);
      assert Keyed([], leaves)[1..] == Keyed([], leaves[1..]);
      UnflatteningPlants(SetDeep(f, leaves[0].0, leaves[0].1), leaves[1..]);
    }
  }

  /** A value comes back from its flat form, fields in order. */
  lemma FlatRoundTrip<V>(f: Fields<V>)
    requires Proper(f) && NoEmpty(f) && Tidy(f) && NoBareObject(f)
    ensures Flatten(f) == Keyed([], LeavesOf(f)) && Unflatten(Flatten(f)) == f
  {
    KeysAreDistinct(f);
    assert [] + Keyed([], LeavesOf(f)) == Keyed([], LeavesOf(f));
    FlatteningLists(f, [], []);
    TidyPathsAreClean(f);
    UnflatteningPlants(End, LeavesOf(f));
    PlantingRebuilds(End, f);
  }

  // ----- the conditions are needed -----

  /** Setting along a clean path keeps a value tidy, proper, and free of empty objects. */
  lemma {:induction false} SetDeepKeeps<V>(f: Fields<V>, parts: seq<Text>, value: V)
    requires Clean(parts) && Proper(f) && NoEmpty(f) && Tidy(f)
    ensures SetDeep(f, parts, value).Field? && Proper(SetDeep(f, parts, value))
    ensures NoEmpty(SetDeep(f, parts, value)) && Tidy(SetDeep(f, parts, value))
    decreases |parts|
  {
    if |parts| == 1 {
      SetKeeps(f, parts[0], Leaf(value));
    } else {
      var child := Get(f, parts[0]);
      var sub := if child.Some? && child.value.Obj? then child.value.fields else End;
      assert Clean(parts[1..]) by {
        assert forall k :: 0 <= k < |parts[1..]| ==> parts[1..][k] == parts[k + 1];
      }
      GotKeeps(f, parts[0]);
      SetDeepKeeps(sub, parts[1..], value);
      SetKeeps(f, parts[0], Obj(SetDeep(sub, parts[1..], value)));
    }
  }

  lemma {:induction false} GotKeeps<V>(f: Fields<V>, key: Text)
    requires Proper(f) && NoEmpty(f) && Tidy(f)
    ensures
      var child := Get(f, key);
      child.Some? && child.value.Obj? ==> Proper(child.value.fields) && NoEmpty(child.value.fields) && Tidy(child.value.fields)
  {
    if f.Field? {
      GotKeeps(f.rest, key);
    }
  }

  lemma {:induction false} SetKeeps<V>(f: Fields<V>, key: Text, value: Json<V>)
    requires Proper(f) && NoEmpty(f) && Tidy(f) && NoDelimiter(key)
    requires value.Obj? ==> value.fields.Field? && !EndsOpen(key) && Proper(value.fields) && NoEmpty(value.fields) && Tidy(value.fields)
    ensures Set(f, key, value).Field? && Proper(Set(f, key, value)) && NoEmpty(Set(f, key, value)) && Tidy(Set(f, key, value))
  {
    if f.Field? && f.key != key {
      SetKeeps(f.rest, key, value);
      SetGets(f.rest, key, value, f.key);
    }
  }

  lemma {:induction false} UnflattenIsTidy<V>(f: Fields<V>, flat: seq<(Text, V)>)
    requires Proper(f) && NoEmpty(f) && Tidy(f)
    ensures NoEmpty(UnflattenInto(f, flat)) && Tidy(UnflattenInto(f, flat))
    decreases |flat|
  {
    hide Split;
    if flat != [] {
      SplitIsClean(flat[0].0);
      SetDeepKeeps(f, Split(flat[0].0), flat[0].1);
      UnflattenIsTidy(SetDeep(f, Split(flat[0].0), flat[0].1), flat[1..]);
    }
  }

  /** A flat key that splits off an empty first segment. */
  predicate Bare(key: Text) {
    DelimiterAt(key, 0)
  }

  predicate NoneBare<V>(flat: seq<(Text, V)>) {
    forall i :: 0 <= i < |flat| ==> !Bare(flat[i].0)
  }

  lemma {:induction false} PutStaysBareFree<V>(flat: seq<(Text, V)>, key: Text, v: V)
    requires NoneBare(flat) && !Bare(key)
    ensures NoneBare(Put(flat, key, v))
  {
    if flat != [] && flat[0].0 != key {
      PutStaysBareFree(flat[1..], key, v);
    }
  }

  lemma {:induction false} MergeStaysBareFree<V>(flat: seq<(Text, V)>, more: seq<(Text, V)>)
    requires NoneBare(flat) && NoneBare(more)
    ensures NoneBare(MergeAll(flat, more))
    decreases |more|
  {
    if more != [] {
      PutStaysBareFree(flat, more[0].0, more[0].1);
      MergeStaysBareFree(Put(flat, more[0].0, more[0].1), more[1..]);
    }
  }

  /** Flattening never yields a key that begins with the delimiter. */
  lemma {:induction false} FlatKeysAreNotBare<V>(f: Fields<V>, prefix: Text, flat: seq<(Text, V)>)
    requires Tidy(f) && NoneBare(flat) && !Bare(prefix) && prefix != [UNDERSCORE]
    ensures NoneBare(FlattenInto(f, prefix, flat))
    decreases f
  {
    if f.Field? {
      var key := FullKey(prefix, f.key);
      NestedKeyIsNotBare(prefix, f.key);
      match f.value
      case Leaf(v) =>
        PutStaysBareFree(flat, key, v);
        FlatKeysAreNotBare(f.rest, prefix, Put(flat, key, v));
      case Obj(sub) =>
        FlatKeysAreNotBare(sub, key, []);
        MergeStaysBareFree(flat, FlattenInto(sub, key, []));
        FlatKeysAreNotBare(f.rest, prefix, MergeAll(flat, FlattenInto(sub, key, [])));
    }
  }

  lemma NestedKeyIsNotBare(prefix: Text, key: Text)
    requires !Bare(prefix) && prefix != [UNDERSCORE] && NoDelimiter(key)
    ensures !Bare(FullKey(prefix, key)) && (!EndsOpen(key) || prefix != [] ==> FullKey(prefix, key) != [UNDERSCORE])
  {
    if prefix != [] {
      assert [prefix, key][1..] == [key];
      assert Join([prefix, key]) == prefix + [UNDERSCORE, UNDERSCORE] + key;
      assert prefix[0] == UNDERSCORE ==> |prefix| > 1;
    } else if |key| > 0 {
      assert !DelimiterAt(key, 0);
    }
  }

  lemma {:induction false} NothingBareIsBuilt<V>(f: Fields<V>, flat: seq<(Text, V)>)
    requires NoneBare(flat) && (Get(f, []).None? || Get(f, []).value.Leaf?)
    ensures
      var r := UnflattenInto(f, flat);
      Get(r, []).None? || Get(r, []).value.Leaf?
    decreases |flat|
  {
    if flat != [] {
      var parts := Split(flat[0].0);
      var i := FirstDelimiter(flat[0].0, 0);
      assert i == 0 ==> flat[0].0 == [];
      if |parts| == 1 {
        SetGets(f, parts[0], Leaf(flat[0].1), []);
      } else {
        var child := Get(f, parts[0]);
        var sub := if child.Some? && child.value.Obj? then child.value.fields else End;
        SetGets(f, parts[0], Obj(SetDeep(sub, parts[1..], flat[0].1)), []);
        assert parts[0] == flat[0].0[..i];
      }
      NothingBareIsBuilt(SetDeep(f, parts, flat[0].1), flat[1..]);
    }
  }

  lemma {:induction false} BareObjectIsGot<V>(f: Fields<V>)
    requires Proper(f)
    ensures NoBareObject(f) <==> Get(f, []).None? || Get(f, []).value.Leaf?
  {
    if f.Field? {
      BareObjectIsGot(f.rest);
      if f.key == [] {
        NoEmptyKeyLeft(f.rest);
      }
    }
  }

  lemma {:induction false} NoEmptyKeyLeft<V>(f: Fields<V>)
    requires Get(f, []).None?
    ensures NoBareObject(f)
  {
    if f.Field? {
      NoEmptyKeyLeft(f.rest);
    }
  }

  /** A value survives being flattened and rebuilt exactly when no nested object is empty,
      its keys are tidy, and no object stands under the empty key at the top. */
  lemma FlatRoundTripExactly<V>(f: Fields<V>)
    requires Proper(f)
    ensures Unflatten(Flatten(f)) == f <==> NoEmpty(f) && Tidy(f) && NoBareObject(f)
  {
    hide Split, Proper, NoEmpty, NoBareObject;
    EndIsProper<V>();
    UnflattenIsTidy(End, Flatten(f));
    if Unflatten(Flatten(f)) == f {
      FlatKeysAreNotBare(f, [], []);
      NothingBareIsBuilt(End, Flatten(f));
      BareObjectIsGot(f);
    } else if NoEmpty(f) && Tidy(f) && NoBareObject(f) {
      FlatRoundTrip(f);
    }
  }

  lemma EndIsProper<V>()
    ensures Proper<V>(End) && NoEmpty<V>(End) && Tidy<V>(End)
  {
  }

  // ----- sparse arrays -----

  /** A sparse array alternates field indexes and values. */
  datatype Item<V> = Index(index: int) | Value(value: V)

  /** The index of each field name; the last of a repeated name. */
  function IndexMap(fields: seq<Text>): (m: map<Text, nat>)
    ensures forall k :: k in m ==> m[k] < |fields| && fields[m[k]] == k
    ensures forall i :: 0 <= i < |fields| ==> fields[i] in m
    decreases |fields|
  {
    if fields == [] then map[]
    else
      var n := |fields| - 1;
      assert forall i :: 0 <= i < n ==> fields[..n][i] == fields[i];
      IndexMap(fields[..n])[fields[n] := n]
  }

  function EncodeFlat<V>(flat: seq<(Text, V)>, indexes: map<Text, nat>): Option<seq<Item<V>>>
    decreases |flat|
  {
    if flat == [] then Some([])
    else
      var n := |flat| - 1;
      match EncodeFlat(flat[..n], indexes)
      case None => None
      case Some(items) => if flat[n].0 !in indexes then None else Some(items + [Index(indexes[flat[n].0]), Value(flat[n].1)])
  }

  /** The nested value as indexes and values; None where a field is unknown. */
  method EncodeFields<V>(data: Fields<V>, indexes: map<Text, nat>) returns (wire: Option<seq<Item<V>>>)
    ensures wire == EncodeFlat(Flatten(data), indexes)
  {
    var flat := Flatten(data);
    var result: seq<Item<V>> := [];
    for i := 0 to |flat|
      invariant EncodeFlat(flat[..i], indexes) == Some(result)
    {
      assert flat[..i + 1][..i] == flat[..i];
      if flat[i].0 !in indexes {
        UnknownFieldFails(flat, indexes, i);
        return None;
      }
      result := result + [Index(indexes[flat[i].0]), Value(flat[i].1)];
    }
    assert flat[..|flat|] == flat;
    return Some(result);
  }

  lemma {:induction false} UnknownFieldFails<V>(flat: seq<(Text, V)>, indexes: map<Text, nat>, i: nat)
    requires i < |flat| && flat[i].0 !in indexes
    ensures EncodeFlat(flat, indexes).None?
    decreases |flat|
  {
    if i < |flat| - 1 {
      UnknownFieldFails(flat[..|flat| - 1], indexes, i);
    }
  }

  /** One decoded field: nested along its path if its name has one. */
  function PlacedField<V>(f: Fields<V>, name: Text, value: V): Fields<V> {
    if NoDelimiter(name) then Set(f, name, Leaf(value)) else SetDeep(f, Split(name), value)
  }

  function DecodeItems<V>(items: seq<Item<V>>, fields: seq<Text>): Option<Fields<V>>
    decreases |items|
  {
    if items == [] then Some(End)
    else
      var n := |items| - 2;
      if n < 0 || !items[n].Index? || !items[n + 1].Value? || !(0 <= items[n].index < |fields|) then None
      else
        match DecodeItems(items[..n], fields)
        case None => None
        case Some(f) => Some(PlacedField(f, fields[items[n].index], items[n + 1].value))
  }

  /** The nested value again; None for an odd length, an unknown index or a misplaced item. */
  method DecodeFields<V>(items: seq<Item<V>>, fields: seq<Text>) returns (data: Option<Fields<V>>)
    ensures data == DecodeItems(items, fields)
  {
    if |items| % 2 != 0 {
      OddLengthFails(items, fields);
      return None;
    }
    var result: Fields<V> := End;
    var i := 0;
    while i < |items|
      invariant 0 <= i <= |items| && i % 2 == 0 && DecodeItems(items[..i], fields) == Some(result)
    {
      assert items[..i + 2][..i] == items[..i];
      if !items[i].Index? || !items[i + 1].Value? || !(0 <= items[i].index < |fields|) {
        BadItemFails(items, fields, i);
        return None;
      }
      result := PlacedField(result, fields[items[i].index], items[i + 1].value);
      i := i + 2;
    }
    assert items[..|items|] == items;
    return Some(result);
  }

  lemma {:induction false} OddLengthFails<V>(items: seq<Item<V>>, fields: seq<Text>)
    requires |items| % 2 != 0
    ensures DecodeItems(items, fields).None?
    decreases |items|
  {
    if |items| > 2 {
      OddLengthFails(items[..|items| - 2], fields);
    }
  }

  lemma {:induction false} BadItemFails<V>(items: seq<Item<V>>, fields: seq<Text>, i: nat)
    requires |items| % 2 == 0 && i % 2 == 0 && i < |items|
    requires !items[i].Index? || !items[i + 1].Value? || !(0 <= items[i].index < |fields|)
    ensures DecodeItems(items, fields).None?
    decreases |items|
  {
    if i < |items| - 2 {
      BadItemFails(items[..|items| - 2], fields, i);
    }
  }

  /** Names without the delimiter are their own path. */
  lemma PlacedIsDeep<V>(f: Fields<V>, name: Text, value: V)
    ensures PlacedField(f, name, value) == SetDeep(f, Split(name), value)
  {
    var i := FirstDelimiter(name, 0);
  }

  lemma {:induction false} UnflattenLast<V>(f: Fields<V>, flat: seq<(Text, V)>)
    requires flat != []
    ensures
      var n := |flat| - 1;
      UnflattenInto(f, flat) == SetDeep(UnflattenInto(f, flat[..n]), Split(flat[n].0), flat[n].1)
    decreases |flat|
  {
    hide Split;
    var n := |flat| - 1;
    if n > 0 {
      UnflattenLast(SetDeep(f, Split(flat[0].0), flat[0].1), flat[1..]);
      assert flat[1..][..n - 1] == flat[..n][1..];
    } else {
      assert flat[1..] == [];
    }
  }

  /** Decoding what was encoded is unflattening the flat form. */
  lemma {:induction false} DecodeInvertsEncode<V>(flat: seq<(Text, V)>, fields: seq<Text>)
    requires forall i :: 0 <= i < |flat| ==> flat[i].0 in fields
    ensures EncodeFlat(flat, IndexMap(fields)).Some?
    ensures DecodeItems(EncodeFlat(flat, IndexMap(fields)).value, fields) == Some(Unflatten(flat))
    decreases |flat|
  {
    hide Split;
    if flat != [] {
      var n := |flat| - 1;
      DecodeInvertsEncode(flat[..n], fields);
      var before := EncodeFlat(flat[..n], IndexMap(fields)).value;
      assert flat[n].0 in fields;
      var items := before + [Index(IndexMap(fields)[flat[n].0]), Value(flat[n].1)];
      assert items[..|before|] == before;
      PlacedIsDeep(Unflatten(flat[..n]), flat[n].0, flat[n].1);
      UnflattenLast(End, flat);
    }
  }

  /** A nested value comes back from its sparse encoding, for any dictionary that covers it. */
  lemma SparseRoundTrip<V>(data: Fields<V>, fields: seq<Text>)
    requires Proper(data) && NoEmpty(data) && Tidy(data) && NoBareObject(data)
    requires forall i :: 0 <= i < |Flatten(data)| ==> Flatten(data)[i].0 in fields
    ensures EncodeFlat(Flatten(data), IndexMap(fields)).Some?
    ensures DecodeItems(EncodeFlat(Flatten(data), IndexMap(fields)).value, fields) == Some(data)
  {
    DecodeInvertsEncode(Flatten(data), fields);
    FlatRoundTrip(data);
  }
}

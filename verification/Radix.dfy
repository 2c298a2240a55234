/** Positional numbers, each position with its own radix.

    The value of a digit string, its digits back, and the fact both directions rest on:
    strings of the same shape are ordered like their values. */
module Radix {
  import opened Basics

  predicate Radices(r: seq<nat>) {
    forall i :: 0 <= i < |r| ==> r[i] > 0
  }

  predicate DigitsOf(d: seq<nat>, r: seq<nat>) {
    |d| == |r| && Radices(r) && forall i :: 0 <= i < |d| ==> d[i] < r[i]
  }

  function Prod(r: seq<nat>): nat
    decreases |r|
  {
    if r == [] then 1 else Prod(r[..|r| - 1]) * r[|r| - 1]
  }

  /** Horner's rule, most significant digit first. */
  function Value(d: seq<nat>, r: seq<nat>): nat
    requires |d| == |r|
    decreases |d|
  {
    if d == [] then 0 else Value(d[..|d| - 1], r[..|r| - 1]) * r[|r| - 1] + d[|d| - 1]
  }

  /** The digits of v, taken from the end; what does not fit is cut off. */
  function Digits(v: nat, r: seq<nat>): (d: seq<nat>)
    requires Radices(r)
    ensures DigitsOf(d, r)
    decreases |r|
  {
    if r == [] then []
    else
      var b := r[|r| - 1];
      Digits(v / b, r[..|r| - 1]) + [v % b]
  }

  /** What is left of v after all its digits are taken. */
  function Rest(v: nat, r: seq<nat>): nat
    requires Radices(r)
    decreases |r|
  {
    if r == [] then v else Rest(v / r[|r| - 1], r[..|r| - 1])
  }

  // ----- arithmetic -----

  lemma Step(a: nat, n: nat, b: Positive, x: nat)
    requires a < n && x < b
    ensures a * b + x < n * b
  {
    Distribute(a, n - a, b);
    MultiplesAreApart(b, n - a);
  }

  // ----- values and digits are inverses -----

  lemma {:induction false} ValueIsBounded(d: seq<nat>, r: seq<nat>)
    requires DigitsOf(d, r)
    ensures Value(d, r) < Prod(r)
    decreases |d|
  {
    if d != [] {
      var n := |d| - 1;
      ValueIsBounded(d[..n], r[..n]);
      Step(Value(d[..n], r[..n]), Prod(r[..n]), r[n], d[n]);
    }
  }

  lemma {:induction false} DigitsOfValue(d: seq<nat>, r: seq<nat>)
    requires DigitsOf(d, r)
    ensures Digits(Value(d, r), r) == d && Rest(Value(d, r), r) == 0
    decreases |d|
  {
    if d != [] {
      var n := |d| - 1;
      DigitsOfValue(d[..n], r[..n]);
      QuotientIsUnique(r[n], Value(d[..n], r[..n]), d[n], Value(d, r));
    }
  }

  lemma DigitsUnfold(v: nat, r: seq<nat>)
    requires Radices(r) && r != []
    ensures
      var n := |r| - 1;
      Digits(v, r) == Digits(v / r[n], r[..n]) + [v % r[n]] && Rest(v, r) == Rest(v / r[n], r[..n])
  {
  }

  lemma {:induction false} ValueOfDigits(v: nat, r: seq<nat>)
    requires Radices(r)
    ensures v == Rest(v, r) * Prod(r) + Value(Digits(v, r), r)
    decreases |r|
  {
    if r != [] {
      hide Digits, Rest;
      var n := |r| - 1;
      var b, q := r[n], v / r[n];
      ValueOfDigits(q, r[..n]);
      DigitsUnfold(v, r);
      var d := Digits(v, r);
      assert d[..n] == Digits(q, r[..n]) && d[n] == v % b;
      Regroup(Rest(q, r[..n]), Prod(r[..n]), Value(d[..n], r[..n]), b);
      Whole(v, b);
    }
  }

  lemma Whole(v: nat, b: Positive)
    ensures v == v / b * b + v % b
  {
  }

  lemma Regroup(rest: nat, p: nat, low: nat, b: nat)
    ensures (rest * p + low) * b == rest * (p * b) + low * b
  {
  }

  lemma {:induction false} ProdIsPositive(r: seq<nat>)
    requires Radices(r)
    ensures Prod(r) > 0
    decreases |r|
  {
    if r != [] {
      ProdIsPositive(r[..|r| - 1]);
      MultiplesAreApart(r[|r| - 1], Prod(r[..|r| - 1]));
    }
  }

  /** A number fits exactly when nothing is left. */
  lemma FitsIffNothingLeft(v: nat, r: seq<nat>)
    requires Radices(r)
    ensures Rest(v, r) == 0 <==> v < Prod(r)
    ensures v < Prod(r) ==> Value(Digits(v, r), r) == v
  {
    ValueOfDigits(v, r);
    ValueIsBounded(Digits(v, r), r);
    ProdIsPositive(r);
    MultiplesAreApart(Prod(r), Rest(v, r));
  }

  lemma ValueIsInjective(a: seq<nat>, b: seq<nat>, r: seq<nat>)
    requires DigitsOf(a, r) && DigitsOf(b, r) && Value(a, r) == Value(b, r)
    ensures a == b
  {
    DigitsOfValue(a, r);
    DigitsOfValue(b, r);
  }

  // ----- order -----

  /** Lexicographic order: at the first difference a is smaller, or a ends there. */
  ghost predicate Before(a: seq<nat>, b: seq<nat>) {
    exists k: nat :: SplitsAt(a, b, k)
  }

  predicate SplitsAt(a: seq<nat>, b: seq<nat>, k: nat) {
    k <= |a| && k < |b| && (forall i :: 0 <= i < k ==> a[i] == b[i]) && (k == |a| || a[k] < b[k])
  }

  lemma {:induction false} BeforeIsTotal(a: seq<nat>, b: seq<nat>)
    ensures a == b || Before(a, b) || Before(b, a)
    decreases |a|
  {
    if a == [] {
      if b != [] {
        assert SplitsAt(a, b, 0);
      }
    } else if b == [] {
      assert SplitsAt(b, a, 0);
    } else if a[0] < b[0] {
      assert SplitsAt(a, b, 0);
    } else if b[0] < a[0] {
      assert SplitsAt(b, a, 0);
    } else {
      BeforeIsTotal(a[1..], b[1..]);
      if Before(a[1..], b[1..]) {
        BeforeBehind(a, b);
      } else if Before(b[1..], a[1..]) {
        BeforeBehind(b, a);
      }
    }
  }

  lemma BeforeBehind(a: seq<nat>, b: seq<nat>)
    requires a != [] && b != [] && a[0] == b[0] && Before(a[1..], b[1..])
    ensures Before(a, b)
  {
    var k: nat :| SplitsAt(a[1..], b[1..], k);
    assert forall i :: 1 <= i <= k ==> a[i] == a[1..][i - 1] && b[i] == b[1..][i - 1];
    assert SplitsAt(a, b, k + 1);
  }

  lemma BeforeIsAsymmetric(a: seq<nat>, b: seq<nat>)
    requires Before(a, b)
    ensures a != b && !Before(b, a)
  {
    var k: nat :| SplitsAt(a, b, k);
    if Before(b, a) {
      var j: nat :| SplitsAt(b, a, j);
    }
  }

  lemma NotBeforeItself(a: seq<nat>)
    ensures !Before(a, a)
  {
    if Before(a, a) {
      BeforeIsAsymmetric(a, a);
    }
  }

  lemma BeforeIsTransitive(a: seq<nat>, b: seq<nat>, c: seq<nat>)
    requires Before(a, b) && Before(b, c)
    ensures Before(a, c)
  {
    var j: nat :| SplitsAt(a, b, j);
    var k: nat :| SplitsAt(b, c, k);
    var m := if j < k then j else k;
    assert SplitsAt(a, c, m);
  }

  /** Code units in order, then length. */
  method CompareTexts(a: Text, b: Text) returns (sign: int)
    ensures (sign < 0 <==> Before(a, b)) && (sign > 0 <==> Before(b, a)) && (sign == 0 <==> a == b)
  {
    var i := 0;
    while i < |a| && i < |b| && a[i] == b[i]
      invariant 0 <= i <= |a| && i <= |b| && forall k :: 0 <= k < i ==> a[k] == b[k]
    {
      i := i + 1;
    }
    if i == |a| && i == |b| {
      assert a == b;
      NotBeforeItself(a);
      return 0;
    }
    if i == |a| || (i < |b| && a[i] < b[i]) {
      assert SplitsAt(a, b, i);
      BeforeIsAsymmetric(a, b);
      return -1;
    }
    assert SplitsAt(b, a, i);
    BeforeIsAsymmetric(b, a);
    return 1;
  }

  /** Strings of the same shape are ordered like their values. */
  lemma {:induction false} OrderIsValue(a: seq<nat>, b: seq<nat>, r: seq<nat>)
    requires DigitsOf(a, r) && DigitsOf(b, r)
    ensures Before(a, b) <==> Value(a, r) < Value(b, r)
  {
    if Before(a, b) {
      var k: nat :| SplitsAt(a, b, k);
      SmallerAtSplit(a, b, r, k);
    } else {
      BeforeIsTotal(a, b);
      if Before(b, a) {
        var k: nat :| SplitsAt(b, a, k);
        SmallerAtSplit(b, a, r, k);
      }
    }
  }

  lemma {:induction false} SmallerAtSplit(a: seq<nat>, b: seq<nat>, r: seq<nat>, k: nat)
    requires DigitsOf(a, r) && DigitsOf(b, r) && SplitsAt(a, b, k)
    ensures Value(a, r) < Value(b, r)
    decreases |a|
  {
    var n := |a| - 1;
    if k < n {
      SmallerAtSplit(a[..n], b[..n], r[..n], k);
      Step(Value(a[..n], r[..n]), Value(b[..n], r[..n]), r[n], a[n]);
    } else {
      assert a[..n] == b[..n];
    }
  }
}

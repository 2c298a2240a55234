/** Values that every part of the model uses. */
module Basics {
  datatype Option<+T> = None | Some(value: T)

  type Byte = n: nat | n < 256

  /** A UTF-16 code unit; strings are sequences of them. */
  type Unit = n: nat | n < 0x10000

  type Text = seq<Unit>

  type Positive = n: nat | n > 0 witness 1

  // ----- the arithmetic Dafny does not do alone -----

  lemma QuotientIsUnique(w: Positive, q: nat, r: nat, n: nat)
    requires r < w && n == q * w + r
    ensures n / w == q && n % w == r
  {
    var d := n / w - q;
    assert n == (n / w) * w + n % w;
    assert d * w == (n / w) * w - q * w == r - n % w;
    MultiplesAreApart(w, d);
  }

  lemma MultiplesAreApart(w: Positive, d: int)
    ensures d >= 1 ==> d * w >= w
    ensures d <= -1 ==> d * w <= 0 - w
  {
    if d >= 1 {
      assert d * w == w + (d - 1) * w;
    } else if d <= -1 {
      assert d * w == (d + 1) * w - w;
    }
  }

  lemma Distribute(a: int, b: int, w: int)
    ensures (a + b) * w == a * w + b * w
  {
  }
}

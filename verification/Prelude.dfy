/** Option, the roundings of JavaScript's `Math`, division rounded up, and the size of a subset. */
module Prelude {

  datatype Option<+T> = None | Some(value: T)

  /** Times to live and intervals are positive. */
  type pos = n: int | n > 0 witness 1

  function Max(a: int, b: int): int {
    if a < b then b else a
  }

  function Unit(b: bool): nat {
    if b then 1 else 0
  }

  /** `Math.ceil`. */
  function Ceil(x: real): (n: int)
    ensures n as real - 1.0 < x <= n as real
  {
    -((-x).Floor)
  }

  /** `Math.round`: halves go up. */
  function Round(x: real): (n: int)
    ensures x - 0.5 < n as real <= x + 0.5
  {
    (x + 0.5).Floor
  }

  /** How many intervals of length `t` are needed to cover `x`; none when `x` is not positive. */
  function Cover(x: int, t: pos): nat
    decreases Max(x, 0)
  {
    if x <= 0 then 0 else 1 + Cover(x - t, t)
  }

  lemma {:induction false} CoverMonotone(x: int, y: int, t: pos)
    requires x <= y
    ensures Cover(x, t) <= Cover(y, t)
    decreases Max(y, 0)
  {
    if x <= 0 {
    } else {
      CoverMonotone(x - t, y - t, t);
    }
  }

  /** Cover is division rounded up. */
  lemma {:induction false} CoverIsCeiling(x: nat, t: pos)
    ensures x <= Cover(x, t) * t < x + t
    decreases x
  {
    if x == 0 {
    } else if x <= t {
      assert Cover(x - t, t) == 0;
    } else {
      CoverIsCeiling(x - t, t);
      TimesMore(Cover(x - t, t), t);
    }
  }

  lemma TimesMore(n: nat, t: int)
    ensures (1 + n) * t == n * t + t
  {
  }

  lemma {:induction false} SubsetCard<T>(a: set<T>, b: set<T>)
    requires a <= b
    ensures |a| <= |b|
  {
    if a == {} {
    } else {
      var x :| x in a;
      SubsetCard(a - {x}, b - {x});
    }
  }
}

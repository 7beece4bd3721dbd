/** How long the dial loop waits: the closed form of the doubling and the jitter around it. */
module Backoff {
  import opened Wire
  import opened Peers

  function Pow2(n: nat): nat {
    if n == 0 then 1 else 2 * Pow2(n - 1)
  }

  function Least(a: int, b: int): int {
    if a < b then a else b
  }

  /** The backoff after `n` bumps since the last reset. */
  function After(n: nat, minimum: int64, maximum: int64): int64 {
    if n == 0 then 0 else Bump(After(n - 1, minimum, maximum), minimum, maximum)
  }

  /** The intended value: the minimum doubled n-1 times, capped at the maximum. */
  function ClosedForm(n: nat, minimum: int64, maximum: int64): int {
    if n == 0 then 0 else Least(maximum, minimum * Pow2(n - 1))
  }

  /** What the options check guarantees. */
  predicate Configured(minimum: int64, maximum: int64) {
    0 < minimum <= maximum
  }

  const DEFAULT_MINIMUM: int64 := 1_000_000_000
  const DEFAULT_MAXIMUM: int64 := 30_000_000_000

  /** The options check: defaults for what is not positive, then the order of the two. */
  function Resolved(minimum: int64, maximum: int64): Option<(int64, int64)> {
    var least := if minimum <= 0 then DEFAULT_MINIMUM else minimum;
    var most := if maximum <= 0 then DEFAULT_MAXIMUM else maximum;
    if most < least then None else Some((least, most))
  }

  /** Whatever options pass the check are configured; with the default maximum doubling fits, and they
      are refused exactly when the minimum in force exceeds the maximum in force. */
  lemma {:induction false} ResolvedIsConfigured(minimum: int64, maximum: int64)
    ensures Resolved(minimum, maximum).Some? ==> Configured(Resolved(minimum, maximum).value.0, Resolved(minimum, maximum).value.1)
    ensures Resolved(0, 0) == Some((1_000_000_000, 30_000_000_000))
    ensures Resolved(minimum, maximum).Some? && minimum > 0 ==> Resolved(minimum, maximum).value.0 == minimum
    ensures Resolved(minimum, maximum).Some? && maximum > 0 ==> Resolved(minimum, maximum).value.1 == maximum
    ensures Resolved(minimum, maximum).Some? && maximum <= 0 ==> DoublingFits(Resolved(minimum, maximum).value.1)
    ensures Resolved(minimum, maximum) == None <==>
              (0 < maximum < minimum) || (minimum <= 0 < maximum < DEFAULT_MINIMUM) || (maximum <= 0 && minimum > DEFAULT_MAXIMUM)
  {
  }

  /** Twice the maximum fits a 64-bit duration. */
  predicate DoublingFits(maximum: int64) {
    2 * maximum < TWO_63
  }

  lemma {:induction false} DoubleOnce(n: nat, minimum: int64)
    requires n >= 1
    ensures minimum * Pow2(n) == 2 * (minimum * Pow2(n - 1))
  {
    assert Pow2(n) == 2 * Pow2(n - 1);
    Reorder(minimum, Pow2(n - 1));
  }

  lemma {:induction false} Reorder(a: int, b: int)
    ensures a * (2 * b) == 2 * (a * b)
  {
  }

  lemma {:induction false} DoublesPositive(n: nat, minimum: int64)
    requires minimum > 0
    ensures minimum * Pow2(n) >= minimum
  {
    if n > 0 {
      DoublesPositive(n - 1, minimum);
      DoubleOnce(n, minimum);
    }
  }

  /** Doubling a positive 64-bit number wraps to a negative one exactly when it is too large. */
  lemma {:induction false} DoubleWraps(c: int64)
    requires c > 0
    ensures 2 * c < TWO_63 ==> Wrap64(c * 2) == 2 * c
    ensures 2 * c >= TWO_63 ==> Wrap64(c * 2) == 2 * c - TWO_64 < 0
  {
  }

  lemma {:induction false} BumpDoubles(c: int64, x: int, minimum: int64, maximum: int64)
    requires c > 0 && c == Least(maximum, x) && 2 * c < TWO_63
    ensures Bump(c, minimum, maximum) == Least(maximum, 2 * x)
  {
    DoubleWraps(c);
  }

  /** While doubling does not overflow, one more bump follows the closed form. */
  lemma {:induction false} BumpFollows(n: nat, minimum: int64, maximum: int64)
    requires Configured(minimum, maximum)
    requires n >= 1 ==> After(n, minimum, maximum) == ClosedForm(n, minimum, maximum)
    requires n >= 1 ==> 2 * After(n, minimum, maximum) < TWO_63
    ensures After(n + 1, minimum, maximum) == ClosedForm(n + 1, minimum, maximum)
  {
    if n == 0 {
      assert Pow2(0) == 1;
    } else {
      DoubleOnce(n, minimum);
      DoublesPositive(n - 1, minimum);
      BumpDoubles(After(n, minimum, maximum), minimum * Pow2(n - 1), minimum, maximum);
    }
  }

  lemma {:induction false} AfterIsClosedForm(n: nat, minimum: int64, maximum: int64)
    requires Configured(minimum, maximum) && DoublingFits(maximum)
    ensures After(n, minimum, maximum) == ClosedForm(n, minimum, maximum)
  {
    if n > 0 {
      AfterIsClosedForm(n - 1, minimum, maximum);
      BumpFollows(n - 1, minimum, maximum);
    }
  }

  /** With a larger maximum the closed form is followed up to a value too large to double. */
  lemma {:induction false} GrowsUntilTooLarge(n: nat, minimum: int64, maximum: int64) returns (m: nat)
    requires Configured(minimum, maximum) && !DoublingFits(maximum) && n >= 1
    requires After(n, minimum, maximum) == ClosedForm(n, minimum, maximum)
    ensures m >= 1 && After(m, minimum, maximum) == ClosedForm(m, minimum, maximum)
    ensures 2 * After(m, minimum, maximum) >= TWO_63
    decreases TWO_63 - After(n, minimum, maximum)
  {
    DoublesPositive(n - 1, minimum);
    if 2 * After(n, minimum, maximum) >= TWO_63 {
      m := n;
    } else {
      BumpFollows(n, minimum, maximum);
      DoubleOnce(n, minimum);
      m := GrowsUntilTooLarge(n + 1, minimum, maximum);
    }
  }

  lemma {:induction false} TooLargeTurnsNegative(minimum: int64, maximum: int64) returns (n: nat)
    requires Configured(minimum, maximum) && !DoublingFits(maximum)
    ensures After(n, minimum, maximum) < 0 < ClosedForm(n, minimum, maximum)
  {
    BumpFollows(0, minimum, maximum);
    var m := GrowsUntilTooLarge(1, minimum, maximum);
    DoublesPositive(m - 1, minimum);
    DoublesPositive(m, minimum);
    DoubleWraps(After(m, minimum, maximum));
    n := m + 1;
  }

  /** The backoff is the closed form for every number of bumps exactly when twice the configured
      maximum fits; otherwise some bump turns it negative. */
  lemma {:induction false} ClosedFormExactly(minimum: int64, maximum: int64)
    requires Configured(minimum, maximum)
    ensures (forall n: nat :: After(n, minimum, maximum) == ClosedForm(n, minimum, maximum)) <==> DoublingFits(maximum)
    ensures !DoublingFits(maximum) ==> exists n: nat :: After(n, minimum, maximum) < 0
  {
    if DoublingFits(maximum) {
      forall n: nat
        ensures After(n, minimum, maximum) == ClosedForm(n, minimum, maximum)
      {
        AfterIsClosedForm(n, minimum, maximum);
      }
    } else {
      var n := TooLargeTurnsNegative(minimum, maximum);
    }
  }

  /** The wait before the next attempt; `r` is the random draw, below half of the base. */
  function WithJitter(base: int64, r: int64): int64
    requires base >= 2 ==> 0 <= r < base / 2
  {
    if base <= 0 then 0
    else if base / 2 == 0 then base
    else base / 2 + r
  }

  lemma {:induction false} JitterBounds(base: int64, r: int64)
    requires base >= 2 ==> 0 <= r < base / 2
    ensures base >= 2 ==> base / 2 <= WithJitter(base, r) < base
    ensures base == 1 ==> WithJitter(base, r) == 1
    ensures base <= 0 ==> WithJitter(base, r) == 0
  {
  }

  /** Every wait from half the base up to just below twice that half is drawn, each by one draw. */
  lemma {:induction false} JitterIsSpread(base: int64, w: int64)
    requires base >= 2
    ensures (exists r: int64 :: 0 <= r < base / 2 && WithJitter(base, r) == w) <==> base / 2 <= w < 2 * (base / 2)
    ensures forall r: int64, q: int64 :: 0 <= r < q < base / 2 ==> WithJitter(base, r) < WithJitter(base, q)
  {
    if base / 2 <= w < 2 * (base / 2) {
      assert WithJitter(base, w - base / 2) == w;
    }
  }

  /** The n-th wait since the last reset, under the default options or any whose maximum doubles. */
  lemma {:induction false} NthWait(n: nat, minimum: int64, maximum: int64, r: int64)
    requires Configured(minimum, maximum) && DoublingFits(maximum) && n >= 1 && minimum >= 2
    requires 0 <= r < After(n, minimum, maximum) / 2
    ensures var base := Least(maximum, minimum * Pow2(n - 1));
      base / 2 <= WithJitter(After(n, minimum, maximum), r) < base
  {
    AfterIsClosedForm(n, minimum, maximum);
    DoublesPositive(n - 1, minimum);
  }
}

/** Integer bookkeeping shared by both limiters: sums over windows of ticks,
    the q-scaled window deviation `Σx − q·Σy`, the telescoping argument that
    bounds it, an integer version of the brute-force window-error oracle, and
    the integer-division facts both limiters rely on. */
module Ledger {

  /** One tick of a limiter: the remainder after the tick and the tokens emitted. */
  datatype Tick = Tick(rem: int, emitted: int)

  /** A whole run: the emission per tick, and the remainder before the first
      tick followed by the remainder after each tick. */
  datatype Trace = Trace(emitted: seq<int>, rems: seq<int>)

  function Abs(n: int): (r: nat)
    ensures r == n || r == -n
  {
    if n < 0 then -n else n
  }

  function Max(a: nat, b: nat): (r: nat)
    ensures a <= r && b <= r && (r == a || r == b)
  {
    if a < b then b else a
  }

  /** Every value of `xs` lies in `[lo, hi]`. */
  predicate InRange(xs: seq<int>, lo: int, hi: int)
  {
    forall i :: 0 <= i < |xs| ==> lo <= xs[i] <= hi
  }

  function Sum(s: seq<int>): (r: int)
  {
    if s == [] then 0 else s[0] + Sum(s[1..])
  }

  lemma {:induction false} SumNonNegative(xs: seq<int>)
    requires forall i :: 0 <= i < |xs| ==> 0 <= xs[i]
    ensures Sum(xs) >= 0
    decreases |xs|
  {
    if xs != [] {
      SumNonNegative(xs[1..]);
    }
  }

  lemma {:induction false} SumOfZeros(ys: seq<int>)
    requires forall i :: 0 <= i < |ys| ==> ys[i] == 0
    ensures Sum(ys) == 0
    decreases |ys|
  {
    if ys != [] {
      SumOfZeros(ys[1..]);
    }
  }

  /** q times the signed error of the window `[s, t)`: scaled demand minus
      q times the tokens emitted over those ticks. */
  function Deviation(q: int, xs: seq<int>, ys: seq<int>, s: int, t: int): (d: int)
    requires |ys| == |xs| && 0 <= s <= t <= |xs|
  {
    Sum(xs[s..t]) - q * Sum(ys[s..t])
  }

  /** `rs` is the remainder register of a run on demands `xs` with emissions
      `ys`: every tick adds its demand and takes away q per token emitted. */
  predicate IsLedger(q: int, xs: seq<int>, ys: seq<int>, rs: seq<int>)
  {
    && |ys| == |xs|
    && |rs| == |xs| + 1
    && forall i :: 0 <= i < |xs| ==> rs[i + 1] == rs[i] + xs[i] - q * ys[i]
  }

  /** Every remainder of the run lies in `[0, q)`. */
  predicate RemaindersBelow(q: int, rs: seq<int>)
  {
    forall i :: 0 <= i < |rs| ==> 0 <= rs[i] < q
  }

  /** The window deviation telescopes to the difference of the two remainders
      at the ends of the window. */
  lemma {:induction false} Telescoping(q: int, xs: seq<int>, ys: seq<int>, rs: seq<int>, s: int, t: int)
    requires IsLedger(q, xs, ys, rs)
    requires 0 <= s <= t <= |xs|
    ensures Deviation(q, xs, ys, s, t) == rs[t] - rs[s]
    decreases t - s
  {
    if s < t {
      Telescoping(q, xs, ys, rs, s + 1, t);
      assert xs[s..t][1..] == xs[s + 1..t];
      assert ys[s..t][1..] == ys[s + 1..t];
      assert q * Sum(ys[s..t]) == q * ys[s] + q * Sum(ys[s + 1..t]);
    }
  }

  /** When every remainder stays in `[0, q)`, no window deviates by more than q − 1. */
  lemma LedgerWindowBound(q: int, xs: seq<int>, ys: seq<int>, rs: seq<int>)
    requires IsLedger(q, xs, ys, rs) && RemaindersBelow(q, rs)
    ensures forall s, t :: 0 <= s <= t <= |xs| ==> Abs(Deviation(q, xs, ys, s, t)) <= q - 1
    ensures MaxWindowError(q, xs, ys) <= q - 1
  {
    forall s, t | 0 <= s <= t <= |xs|
      ensures Abs(Deviation(q, xs, ys, s, t)) <= q - 1
    {
      Telescoping(q, xs, ys, rs, s, t);
    }
    var w := MaxWindowError(q, xs, ys);
    if w == 0 {
      assert 0 <= rs[0] < q;
    } else {
      var s, t :| 0 <= s <= t <= |xs| && Abs(Deviation(q, xs, ys, s, t)) == w;
    }
  }

  /** The largest `|Deviation(s, t)|` over the windows `[s, t)` with `s < k`, or 0. */
  function WorstEndingAt(q: int, xs: seq<int>, ys: seq<int>, t: int, k: int): (w: nat)
    requires |ys| == |xs| && 0 <= k <= t <= |xs|
    ensures forall s :: 0 <= s < k ==> Abs(Deviation(q, xs, ys, s, t)) <= w
    ensures w == 0 || exists s :: 0 <= s < k && Abs(Deviation(q, xs, ys, s, t)) == w
    decreases k
  {
    if k == 0 then 0
    else Max(WorstEndingAt(q, xs, ys, t, k - 1), Abs(Deviation(q, xs, ys, k - 1, t)))
  }

  /** The largest `|Deviation(s, t)|` over the windows inside `[0, n)`, or 0. */
  function WorstUpTo(q: int, xs: seq<int>, ys: seq<int>, n: int): (w: nat)
    requires |ys| == |xs| && 0 <= n <= |xs|
    ensures forall s, t :: 0 <= s <= t <= n ==> Abs(Deviation(q, xs, ys, s, t)) <= w
    ensures w == 0 || exists s, t :: 0 <= s <= t <= n && Abs(Deviation(q, xs, ys, s, t)) == w
    decreases n
  {
    if n == 0 then 0
    else Max(WorstUpTo(q, xs, ys, n - 1), WorstEndingAt(q, xs, ys, n, n))
  }

  /** q times the brute-force maximum window error: the largest absolute
      deviation over all windows of the run (0 for an empty run). */
  function MaxWindowError(q: int, xs: seq<int>, ys: seq<int>): (w: nat)
    requires |ys| == |xs|
    ensures forall s, t :: 0 <= s <= t <= |xs| ==> Abs(Deviation(q, xs, ys, s, t)) <= w
    ensures w == 0 || exists s, t :: 0 <= s <= t <= |xs| && Abs(Deviation(q, xs, ys, s, t)) == w
  {
    WorstUpTo(q, xs, ys, |xs|)
  }

  /** With no tokens emitted, a window's deviation does not depend on the
      scale, so neither does the maximum window error. */
  lemma ZeroEmissionsScaleFree(q: int, p: int, xs: seq<int>, ys: seq<int>)
    requires |ys| == |xs| && forall i :: 0 <= i < |ys| ==> ys[i] == 0
    ensures MaxWindowError(q, xs, ys) == MaxWindowError(p, xs, ys)
  {
    forall s, t | 0 <= s <= t <= |xs|
      ensures Deviation(q, xs, ys, s, t) == Deviation(p, xs, ys, s, t)
    {
      SumOfZeros(ys[s..t]);
    }
    var a, b := MaxWindowError(q, xs, ys), MaxWindowError(p, xs, ys);
    if b != 0 {
      var s, t :| 0 <= s <= t <= |xs| && Abs(Deviation(p, xs, ys, s, t)) == b;
      assert Abs(Deviation(q, xs, ys, s, t)) == b;
    }
    if a != 0 {
      var s, t :| 0 <= s <= t <= |xs| && Abs(Deviation(q, xs, ys, s, t)) == a;
      assert Abs(Deviation(p, xs, ys, s, t)) == a;
    }
  }

  /** Quotient and remainder are the only pair with `n == q * d + r` and `0 <= r < q`. */
  lemma DivModUnique(n: int, q: int, d: int, r: int)
    requires 0 < q && n == q * d + r && 0 <= r < q
    ensures d == n / q && r == n % q
  {
    var d', r' := n / q, n % q;
    assert n == q * d' + r' && 0 <= r' < q;
    if d < d' {
      assert q * (d' - d) == q * d' - q * d == r - r';
      MulAtLeastOne(q, d' - d);
    } else if d' < d {
      assert q * (d - d') == q * d - q * d' == r' - r;
      MulAtLeastOne(q, d - d');
    }
  }

  lemma MulAtLeastOne(q: int, k: int)
    requires 0 < q && 1 <= k
    ensures q * k >= q
  {
    assert q * k == q + q * (k - 1);
  }
}

/** The multi-token generalisation in tests/test_properties.py: the same carry
    rule, with the discharge test repeated up to M times per tick. Like the
    source, nothing here validates q, M or the demand; the invariant
    `0 <= E < q` is proved for demands in `[0, M*q]`. */
module MultiToken {
  import opened Ledger
  import Limiter

  /** Up to `k` rounds of "if the remainder has reached q, take q away and
      count a token", starting from remainder `e`. */
  function Drain(q: int, e: int, k: nat): (t: Tick)
    ensures t.rem == e - q * t.emitted
    ensures 0 <= t.emitted <= k
    ensures t.emitted < k ==> t.rem < q
    ensures e < q ==> t == Tick(e, 0)
    ensures e >= 0 ==> t.rem >= 0
    decreases k
  {
    if k == 0 then Tick(e, 0)
    else if e >= q then
      var t := Drain(q, e - q, k - 1);
      Tick(t.rem, t.emitted + 1)
    else Drain(q, e, k - 1)
  }

  /** One tick of the multi-token limiter: add the demand, then run the
      discharge test M times (no times at all when M is not positive). */
  function MultiStep(q: int, m: int, e: int, x: int): (t: Tick)
    ensures t.rem == e + x - q * t.emitted
    ensures 0 <= t.emitted && (m < 0 ==> t.emitted == 0) && (0 <= m ==> t.emitted <= m)
    ensures e + x >= 0 ==> t.rem >= 0
    ensures 0 <= m ==> t.rem < q || t.emitted == m
  {
    Drain(q, e + x, Rounds(m))
  }

  /** How many times `for _ in range(m)` runs its body. */
  function Rounds(m: int): (r: nat)
  {
    if m < 0 then 0 else m
  }

  /** With a remainder in `[0, q)` and a demand in `[0, M*q]` the remainder is
      back in `[0, q)` after the tick. */
  lemma MultiStepKeepsInvariant(q: int, m: int, e: int, x: int)
    requires 0 <= e < q && 0 <= m && 0 <= x <= m * q
    ensures 0 <= MultiStep(q, m, e, x).rem < q
  {
    var t := MultiStep(q, m, e, x);
    if t.emitted == m {
      assert t.rem == e + x - q * m;
      assert q * m == m * q;
    }
  }

  /** On those inputs the tick is integer division of the accumulated demand by q. */
  lemma MultiStepIsDivMod(q: int, m: int, e: int, x: int)
    requires 0 <= e < q && 0 <= m && 0 <= x <= m * q
    ensures MultiStep(q, m, e, x) == Tick((e + x) % q, (e + x) / q)
  {
    var t := MultiStep(q, m, e, x);
    MultiStepKeepsInvariant(q, m, e, x);
    DivModUnique(e + x, q, t.emitted, t.rem);
  }

  /** With a cap of one token the multi-token tick is the single-token carry rule. */
  lemma CapOneIsCarryStep(q: int, e: int, x: int)
    requires 2 <= q && 0 <= e < q && 0 <= x <= q
    ensures MultiStep(q, 1, e, x) == Limiter.CarryStep(q, e, x)
  {
    MultiStepIsDivMod(q, 1, e, x);
    Limiter.CarryStepIsDivMod(q, e, x);
  }

  /** What a multi-token limiter with remainder `e` emits, and the remainders it
      passes through, when fed demands in `[0, M*q]`. */
  function MultiRun(q: int, m: int, e: int, xs: seq<int>): (tr: Trace)
    requires 0 <= e < q && 0 <= m && InRange(xs, 0, m * q)
    ensures IsLedger(q, xs, tr.emitted, tr.rems) && tr.rems[0] == e
    ensures RemaindersBelow(q, tr.rems)
    ensures forall i :: 0 <= i < |tr.emitted| ==> 0 <= tr.emitted[i] <= m
    decreases |xs|
  {
    if xs == [] then Trace([], [e])
    else
      var t := MultiStep(q, m, e, xs[0]);
      MultiStepKeepsInvariant(q, m, e, xs[0]);
      var rest := MultiRun(q, m, t.rem, xs[1..]);
      Trace([t.emitted] + rest.emitted, [e] + rest.rems)
  }

  /** A multi-token limiter with cap one emits, tick for tick, what the
      single-token limiter emits. */
  lemma {:induction false} CapOneRunIsRun(q: int, e: int, xs: seq<int>)
    requires 2 <= q && 0 <= e < q && InRange(xs, 0, q)
    ensures MultiRun(q, 1, e, xs) == Limiter.Run(q, e, xs)
    decreases |xs|
  {
    if xs != [] {
      CapOneIsCarryStep(q, e, xs[0]);
      CapOneRunIsRun(q, Limiter.CarryStep(q, e, xs[0]).rem, xs[1..]);
    }
  }

  /** Window bound: no window deviates by more than q − 1, hence by no more than
      M*(q − 1), the bound the source states for a cap of M. */
  lemma MultiRunWindowBound(q: int, m: int, e: int, xs: seq<int>)
    requires 0 <= e < q && 1 <= m && InRange(xs, 0, m * q)
    ensures forall s, t :: 0 <= s <= t <= |xs| ==>
      Abs(Deviation(q, xs, MultiRun(q, m, e, xs).emitted, s, t)) <= q - 1
    ensures MaxWindowError(q, xs, MultiRun(q, m, e, xs).emitted) <= m * (q - 1)
  {
    var tr := MultiRun(q, m, e, xs);
    LedgerWindowBound(q, xs, tr.emitted, tr.rems);
    CapScalesBound(q, m);
  }

  lemma CapScalesBound(q: int, m: int)
    requires 1 <= q && 1 <= m
    ensures q - 1 <= m * (q - 1)
  {
    assert m * (q - 1) == (q - 1) + (m - 1) * (q - 1);
    if 2 <= m && 2 <= q {
      MulAtLeastOne(q - 1, m - 1);
    }
  }

  class MultiTokenLimiter {
    const q: int
    /** The cap on tokens per tick. */
    const M: int
    /** The remainder register. */
    var E: int

    constructor (q: int, M: int)
      ensures this.q == q && this.M == M && E == 0
    {
      this.q := q;
      this.M := M;
      E := 0;
    }

    /** One tick: accumulate the demand, then try M discharges. */
    method Step(x: int) returns (y: int)
      modifies this
      ensures y == MultiStep(q, M, old(E), x).emitted
      ensures E == MultiStep(q, M, old(E), x).rem
    {
      E := E + x;
      y := 0;
      var i := 0;
      while i < M
        invariant 0 <= i && (0 <= M ==> i <= M)
        invariant y + Drain(q, E, Rounds(M - i)).emitted == MultiStep(q, M, old(E), x).emitted
        invariant Drain(q, E, Rounds(M - i)).rem == MultiStep(q, M, old(E), x).rem
      {
        if E >= q {
          E := E - q;
          y := y + 1;
        }
        i := i + 1;
      }
    }
  }

  /** Drive a multi-token limiter tick by tick over `xs`, collecting what it emits. */
  method MultiFeed(lim: MultiTokenLimiter, xs: seq<int>) returns (ys: seq<int>)
    requires 0 <= lim.E < lim.q && 0 <= lim.M && InRange(xs, 0, lim.M * lim.q)
    modifies lim
    ensures ys == MultiRun(lim.q, lim.M, old(lim.E), xs).emitted
    ensures lim.E == MultiRun(lim.q, lim.M, old(lim.E), xs).rems[|xs|]
  {
    var q, m := lim.q, lim.M;
    ghost var whole := MultiRun(q, m, lim.E, xs);
    ys := [];
    var i := 0;
    while i < |xs|
      invariant 0 <= i <= |xs| && 0 <= lim.E < q && InRange(xs[i..], 0, m * q)
      invariant ys + MultiRun(q, m, lim.E, xs[i..]).emitted == whole.emitted
      invariant MultiRun(q, m, lim.E, xs[i..]).rems[|xs| - i] == whole.rems[|xs|]
    {
      MultiRunUnfold(q, m, lim.E, xs[i..]);
      assert xs[i..][1..] == xs[i + 1..];
      var y := lim.Step(xs[i]);
      ys := ys + [y];
      i := i + 1;
    }
  }

  /** The first tick of a run, and the run of the remaining demands from there. */
  lemma MultiRunUnfold(q: int, m: int, e: int, xs: seq<int>)
    requires 0 <= e < q && 0 <= m && InRange(xs, 0, m * q) && xs != []
    ensures InRange(xs[1..], 0, m * q)
    ensures 0 <= MultiStep(q, m, e, xs[0]).rem < q
    ensures MultiRun(q, m, e, xs).emitted ==
      [MultiStep(q, m, e, xs[0]).emitted] + MultiRun(q, m, MultiStep(q, m, e, xs[0]).rem, xs[1..]).emitted
    ensures MultiRun(q, m, e, xs).rems[|xs|] == MultiRun(q, m, MultiStep(q, m, e, xs[0]).rem, xs[1..]).rems[|xs| - 1]
  {
    MultiStepKeepsInvariant(q, m, e, xs[0]);
  }
}

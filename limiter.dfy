/** The fixed-point carry-rule limiter of core/limiter.py: an integer remainder
    register E in [0, q) that absorbs each tick's scaled demand and discharges
    one token whenever it reaches q. */
module Limiter {
  import opened Ledger

  /** The two ValueErrors the limiter raises. */
  datatype LimiterError =
    | InvalidGranularity(q: int)
    | OutOfRange(x: int)

  datatype Result<T> = Ok(value: T) | Err(error: LimiterError)

  /** The carry rule for one tick, from remainder `e` and demand `x` in `[0, q]`. */
  function CarryStep(q: int, e: int, x: int): (t: Tick)
    requires 2 <= q && 0 <= e < q && 0 <= x <= q
    ensures t.rem == e + x - q * t.emitted
    ensures 0 <= t.rem < q
    ensures t.emitted == 0 || t.emitted == 1
  {
    if e + x >= q then Tick(e + x - q, 1) else Tick(e + x, 0)
  }

  /** The carry rule is integer division of the accumulated demand by q:
      the token count is the quotient, the new remainder the remainder, and a
      token is emitted exactly when the accumulated demand reaches q. */
  lemma CarryStepIsDivMod(q: int, e: int, x: int)
    requires 2 <= q && 0 <= e < q && 0 <= x <= q
    ensures CarryStep(q, e, x) == Tick((e + x) % q, (e + x) / q)
    ensures CarryStep(q, e, x).emitted == 1 <==> e + x >= q
  {
    var t := CarryStep(q, e, x);
    DivModUnique(e + x, q, t.emitted, t.rem);
  }

  /** What a limiter with remainder `e` emits, and the remainders it passes
      through, when fed the demands `xs` one tick at a time. */
  function Run(q: int, e: int, xs: seq<int>): (tr: Trace)
    requires 2 <= q && 0 <= e < q && InRange(xs, 0, q)
    ensures IsLedger(q, xs, tr.emitted, tr.rems) && tr.rems[0] == e
    ensures RemaindersBelow(q, tr.rems)
    ensures forall i :: 0 <= i < |tr.emitted| ==> tr.emitted[i] == 0 || tr.emitted[i] == 1
    decreases |xs|
  {
    if xs == [] then Trace([], [e])
    else
      var t := CarryStep(q, e, xs[0]);
      var rest := Run(q, t.rem, xs[1..]);
      Trace([t.emitted] + rest.emitted, [e] + rest.rems)
  }

  /** Window bound: fed any demands in `[0, q]`, a limiter whose remainder starts
      in `[0, q)` (a fresh one starts at 0) never lets a window's scaled demand
      and q times its tokens differ by more than q − 1. */
  lemma RunWindowBound(q: int, e: int, xs: seq<int>)
    requires 2 <= q && 0 <= e < q && InRange(xs, 0, q)
    ensures forall s, t :: 0 <= s <= t <= |xs| ==>
      Abs(Deviation(q, xs, Run(q, e, xs).emitted, s, t)) <= q - 1
    ensures MaxWindowError(q, xs, Run(q, e, xs).emitted) <= q - 1
  {
    var tr := Run(q, e, xs);
    LedgerWindowBound(q, xs, tr.emitted, tr.rems);
  }

  /** The bound is reached: whenever the first demand of a fresh run is q − 1,
      the first tick emits nothing and the window of that tick alone deviates by
      exactly q − 1, so the maximum window error equals the bound. */
  lemma FirstTickReachesBound(q: int, xs: seq<int>)
    requires 2 <= q && InRange(xs, 0, q) && xs != [] && xs[0] == q - 1
    ensures Run(q, 0, xs).emitted[0] == 0
    ensures MaxWindowError(q, xs, Run(q, 0, xs).emitted) == q - 1
  {
    var ys := Run(q, 0, xs).emitted;
    assert ys[0] == CarryStep(q, 0, q - 1).emitted == 0;
    assert xs[0..1] == [xs[0]] && ys[0..1] == [ys[0]];
    assert [xs[0]][1..] == [] && [ys[0]][1..] == [];
    assert Sum([xs[0]]) == q - 1 && Sum([ys[0]]) == 0;
    assert Deviation(q, xs, ys, 0, 1) == q - 1;
    WindowReachingBoundIsMax(q, 0, xs, 0, 1);
  }

  /** A run with one window deviating by q − 1 has maximum window error q − 1. */
  lemma WindowReachingBoundIsMax(q: int, e: int, xs: seq<int>, s: int, t: int)
    requires 2 <= q && 0 <= e < q && InRange(xs, 0, q) && 0 <= s <= t <= |xs|
    requires Abs(Deviation(q, xs, Run(q, e, xs).emitted, s, t)) == q - 1
    ensures MaxWindowError(q, xs, Run(q, e, xs).emitted) == q - 1
  {
    RunWindowBound(q, e, xs);
  }

  /** As long as the remainder plus all the demand so far stays below q, the
      limiter emits nothing and its remainder is that running total. */
  lemma {:induction false} NoTokenBeforeQ(q: int, e: int, xs: seq<int>)
    requires 2 <= q && 0 <= e < q && InRange(xs, 0, q) && e + Sum(xs) < q
    ensures Run(q, e, xs).emitted == seq(|xs|, _ => 0)
    ensures Run(q, e, xs).rems[|xs|] == e + Sum(xs)
    decreases |xs|
  {
    if xs != [] {
      SumNonNegative(xs[1..]);
      NoTokenBeforeQ(q, e + xs[0], xs[1..]);
    }
  }

  /** Demands summing to exactly q − 1 make a fresh limiter emit nothing, and
      the whole run then deviates by the full bound q − 1. */
  lemma DemandJustBelowQIsTight(q: int, xs: seq<int>)
    requires 2 <= q && InRange(xs, 0, q) && Sum(xs) == q - 1
    ensures Run(q, 0, xs).emitted == seq(|xs|, _ => 0)
    ensures Run(q, 0, xs).rems[|xs|] == q - 1
    ensures MaxWindowError(q, xs, Run(q, 0, xs).emitted) == q - 1
  {
    NoTokenBeforeQ(q, 0, xs);
    var ys := Run(q, 0, xs).emitted;
    SumOfZeros(ys);
    assert xs[0..|xs|] == xs && ys[0..|xs|] == ys;
    WindowReachingBoundIsMax(q, 0, xs, 0, |xs|);
  }

  /** For demands summing to q − 1, the q²-scaled maximum window error is
      also q − 1: with no token emitted, the scale does not matter. */
  lemma DemandJustBelowQDoubleScaled(q: int, xs: seq<int>)
    requires 2 <= q && InRange(xs, 0, q) && Sum(xs) == q - 1
    ensures MaxWindowError(q * q, xs, Run(q, 0, xs).emitted) == q - 1
  {
    DemandJustBelowQIsTight(q, xs);
    ZeroEmissionsScaleFree(q * q, q, xs, Run(q, 0, xs).emitted);
  }

  class FairLimiter {
    /** The granularity, fixed at construction. */
    const q: int
    /** The remainder register. */
    var E: int

    ghost predicate Valid()
      reads this
    {
      2 <= q && 0 <= E < q
    }

    constructor (q: int)
      requires 2 <= q
      ensures Valid() && this.q == q && E == 0
    {
      this.q := q;
      E := 0;
    }

    /** Construction with validation: a granularity below 2 is refused. */
    static method Create(q: int) returns (r: Result<FairLimiter>)
      ensures r.Ok? <==> 2 <= q
      ensures r.Err? ==> r.error == InvalidGranularity(q)
      ensures r.Ok? ==> fresh(r.value) && r.value.Valid() && r.value.q == q && r.value.E == 0
    {
      if q < 2 {
        return Err(InvalidGranularity(q));
      }
      var lim := new FairLimiter(q);
      return Ok(lim);
    }

    /** One tick: a demand outside `[0, q]` is refused and leaves E as it was;
        otherwise E advances by the carry rule and the token count is returned. */
    method Step(x: int) returns (r: Result<int>)
      requires Valid()
      modifies this
      ensures Valid()
      ensures !(0 <= x <= q) ==> r == Err(OutOfRange(x)) && E == old(E)
      ensures 0 <= x <= q ==>
        r == Ok(CarryStep(q, old(E), x).emitted) && E == CarryStep(q, old(E), x).rem
    {
      if !(0 <= x <= q) {
        return Err(OutOfRange(x));
      }
      E := E + x;
      if E >= q {
        E := E - q;
        return Ok(1);
      }
      return Ok(0);
    }

    /** Restart the fairness accounting; the granularity is kept. */
    method Reset()
      requires Valid()
      modifies this
      ensures Valid() && E == 0
    {
      E := 0;
    }
  }

  /** Drive a limiter tick by tick over `xs`, collecting what it emits. */
  method Feed(lim: FairLimiter, xs: seq<int>) returns (ys: seq<int>)
    requires lim.Valid() && InRange(xs, 0, lim.q)
    modifies lim
    ensures lim.Valid()
    ensures ys == Run(lim.q, old(lim.E), xs).emitted
    ensures lim.E == Run(lim.q, old(lim.E), xs).rems[|xs|]
  {
    ys := [];
    var i := 0;
    while i < |xs|
      invariant 0 <= i <= |xs| && lim.Valid()
      invariant ys + Run(lim.q, lim.E, xs[i..]).emitted == Run(lim.q, old(lim.E), xs).emitted
      invariant Run(lim.q, lim.E, xs[i..]).rems[|xs| - i] == Run(lim.q, old(lim.E), xs).rems[|xs|]
    {
      assert xs[i..][1..] == xs[i + 1..];
      var r := lim.Step(xs[i]);
      ys := ys + [r.value];
      i := i + 1;
    }
  }

  /** After a reset, a limiter emits on any demands exactly what a freshly
      constructed limiter of the same granularity emits. */
  method ResetMatchesFresh(lim: FairLimiter, xs: seq<int>) returns (ys: seq<int>, freshYs: seq<int>)
    requires lim.Valid() && InRange(xs, 0, lim.q)
    modifies lim
    ensures ys == freshYs == Run(lim.q, 0, xs).emitted
  {
    lim.Reset();
    ys := Feed(lim, xs);
    var other := new FairLimiter(lim.q);
    freshYs := Feed(other, xs);
  }
}

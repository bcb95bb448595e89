/** The concrete runs of the repository's tests and example script, stated as
    lemmas about the model. Window errors are q-scaled: a q-scaled error of
    q − 1 is the float error 1 − 1/q. */
module Witnesses {
  import opened Ledger
  import Limiter
  import MultiToken

  /** q = 4 and demands [0, 1, 1, 1]: nothing is emitted, the whole run deviates
      by 3 = q − 1, and that is the maximum window error. */
  lemma TightWitnessQ4()
    ensures Limiter.Run(4, 0, [0, 1, 1, 1]).emitted == [0, 0, 0, 0]
    ensures Deviation(4, [0, 1, 1, 1], [0, 0, 0, 0], 0, 4) == 3
    ensures MaxWindowError(4, [0, 1, 1, 1], Limiter.Run(4, 0, [0, 1, 1, 1]).emitted) == 3
  {
    WitnessQ4Emits();
    WitnessQ4WholeRun();
    WitnessQ4Max();
  }

  lemma WitnessQ4Emits()
    ensures Limiter.Run(4, 0, [0, 1, 1, 1]).emitted == [0, 0, 0, 0]
  {
  }

  lemma WitnessQ4WholeRun()
    ensures Deviation(4, [0, 1, 1, 1], [0, 0, 0, 0], 0, 4) == 3
  {
    assert [0, 1, 1, 1][0..4] == [0, 1, 1, 1] && [0, 0, 0, 0][0..4] == [0, 0, 0, 0];
  }

  lemma WitnessQ4Max()
    ensures MaxWindowError(4, [0, 1, 1, 1], Limiter.Run(4, 0, [0, 1, 1, 1]).emitted) == 3
  {
    assert InRange([0, 1, 1, 1], 0, 4) && Sum([0, 1, 1, 1]) == 3;
    Limiter.DemandJustBelowQIsTight(4, [0, 1, 1, 1]);
  }

  /** One period of the adversarial plan: q − 1 copies of q − 1, then 1. */
  function Period(q: int): (b: seq<int>)
    requires 2 <= q
    ensures |b| == q && b[0] == q - 1 && InRange(b, 0, q)
  {
    seq(q - 1, _ => q - 1) + [1]
  }

  /** `reps` periods one after the other. */
  function AdversarialPlan(q: int, reps: nat): (p: seq<int>)
    requires 2 <= q
    ensures |p| == q * reps && InRange(p, 0, q)
    ensures reps > 0 ==> p[0] == q - 1
  {
    if reps == 0 then [] else Period(q) + AdversarialPlan(q, reps - 1)
  }

  /** The adversarial plan run through a fresh limiter reaches the bound q − 1
      exactly, for every granularity and every positive number of periods. */
  lemma AdversarialPlanIsTight(q: int, reps: nat)
    requires 2 <= q && 1 <= reps
    ensures MaxWindowError(q, AdversarialPlan(q, reps), Limiter.Run(q, 0, AdversarialPlan(q, reps)).emitted) == q - 1
  {
    Limiter.FirstTickReachesBound(q, AdversarialPlan(q, reps));
  }

  /** The instance used with q = 10 and 50 periods. */
  lemma AdversarialPlanQ10()
    ensures MaxWindowError(10, AdversarialPlan(10, 50), Limiter.Run(10, 0, AdversarialPlan(10, 50)).emitted) == 9
  {
    AdversarialPlanIsTight(10, 50);
  }

  /** The example plan for q = 10 sums to 9: a fresh limiter emits nothing
      and ends with remainder 9. */
  lemma ExamplePlanEmitsNothing()
    ensures Limiter.Run(10, 0, [0, 3, 0, 1, 2, 0, 0, 1, 0, 2]).emitted == [0, 0, 0, 0, 0, 0, 0, 0, 0, 0]
    ensures Limiter.Run(10, 0, [0, 3, 0, 1, 2, 0, 0, 1, 0, 2]).rems[10] == 9
  {
    var xs := [0, 3, 0, 1, 2, 0, 0, 1, 0, 2];
    ExamplePlanSum();
    ExamplePlanInRange();
    Limiter.NoTokenBeforeQ(10, 0, xs);
    assert seq(10, _ => 0) == [0, 0, 0, 0, 0, 0, 0, 0, 0, 0];
  }

  /** Its whole run deviates by 9 = q − 1, which is therefore its maximum
      window error. */
  lemma ExamplePlanIsTight()
    ensures MaxWindowError(10, [0, 3, 0, 1, 2, 0, 0, 1, 0, 2], Limiter.Run(10, 0, [0, 3, 0, 1, 2, 0, 0, 1, 0, 2]).emitted) == 9
  {
    var xs := [0, 3, 0, 1, 2, 0, 0, 1, 0, 2];
    ExamplePlanSum();
    ExamplePlanInRange();
    Limiter.DemandJustBelowQIsTight(10, xs);
  }

  /** The example script's own `max_window_err` divides the plan by q twice:
      once when it converts the plan to floats and once inside the prefix sum.
      It therefore computes the maximum of `|Σx/q² − Σy|`, which is
      q²-scaled `MaxWindowError`. For this plan that is 9/100 = 0.09, whereas
      the q-scaled error the tests use, against which it is printed as the
      bound 1 − 1/q, is 9/10 = 0.9. */
  /** What the example script itself prints as the maximum window error. Its
      `max_window_err` divides each demand by q twice: once when the plan is
      converted to floats and once inside the prefix sum. It therefore
      computes the maximum of `|Σx/q² − Σy|`, which is the q²-scaled
      `MaxWindowError`. For this plan that gives 9/100 = 0.09, printed next to
      the bound 1 − 1/q = 0.9. The q-scaled error, which
      `ExamplePlanIsTight` proves to be 9, is 9/10 = 0.9. */
  lemma ExamplePlanScriptError()
    ensures MaxWindowError(100, [0, 3, 0, 1, 2, 0, 0, 1, 0, 2], Limiter.Run(10, 0, [0, 3, 0, 1, 2, 0, 0, 1, 0, 2]).emitted) == 9
  {
    ExamplePlanSum();
    ExamplePlanInRange();
    Limiter.DemandJustBelowQDoubleScaled(10, [0, 3, 0, 1, 2, 0, 0, 1, 0, 2]);
  }

  lemma ExamplePlanInRange()
    ensures InRange([0, 3, 0, 1, 2, 0, 0, 1, 0, 2], 0, 10)
  {
  }

  lemma ExamplePlanSum()
    ensures Sum([0, 3, 0, 1, 2, 0, 0, 1, 0, 2]) == 9
  {
  }

  /** q = 10, cap 3, demands [0, 5, 10, 15, 0, 10]: the run emits
      [0, 0, 1, 2, 0, 1], remainders 0, 0, 5, 5, 0, 0, 0. */
  lemma MultiTokenRunQ10()
    ensures MultiToken.MultiRun(10, 3, 0, [0, 5, 10, 15, 0, 10]).emitted == [0, 0, 1, 2, 0, 1]
  {
  }

  /** That run stays within the capped bound 3 * (10 − 1). */
  lemma MultiTokenScalingQ10()
    ensures MaxWindowError(10, [0, 5, 10, 15, 0, 10], MultiToken.MultiRun(10, 3, 0, [0, 5, 10, 15, 0, 10]).emitted) <= 3 * 9
  {
    var xs := [0, 5, 10, 15, 0, 10];
    MultiToken.MultiRunWindowBound(10, 3, 0, xs);
  }
}

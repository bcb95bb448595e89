# QuantaFlow carry-rule limiter, modelled in Dafny

QuantaFlow turns a stream of scaled demands `x ∈ [0, q]` into a stream of
token counts. It does this with integer arithmetic only, using a
fixed-point carry rule. The limiter keeps one integer, the remainder `E`.
Each tick adds the demand to `E`. When `E` reaches the granularity `q`,
the limiter takes `q` away and emits a token. Because `E` stays in `[0, q)`,
it records exactly how much demand has not yet been paid out. For every
window of ticks, the scaled demand `Σx` and `q` times the tokens emitted
`Σy` therefore differ by at most `q − 1`. In float terms, the window error
is at most `1 − 1/q`.

The project models:

- `FairLimiter` from `core/limiter.py`: construction with validation,
  the single-token `step` with its range check, and `reset`.
- `MultiTokenLimiter` from `tests/test_properties.py`: the same rule, with
  the discharge test repeated up to `M` times per tick.
- The brute-force window-error oracle, as an integer function.
- The concrete runs in the tests and the example script.

Files:

- `ledger.dfy` (module `Ledger`): sums over windows, and the q-scaled
  window deviation `Σx − q·Σy`. It proves that the deviation telescopes to
  the difference of two remainders. It also holds `MaxWindowError`, the
  integer form of the oracle.
- `limiter.dfy` (module `Limiter`): the carry rule `CarryStep`, a whole run
  `Run`, the class `FairLimiter`, the driver `Feed`, the window bound, and
  the proof that the bound is reached.
- `multi_token.dfy` (module `MultiToken`): `Drain` and `MultiStep` (the
  capped loop), `MultiRun`, and the class `MultiTokenLimiter`. It proves
  the invariant, the equivalence with `CarryStep` when `M = 1`, and the
  capped window bound.
- `witnesses.dfy` (module `Witnesses`): the concrete runs.

Window errors are q-scaled throughout. The float value
`_max_window_error(xs, ys, q)` computed by the tests equals
`MaxWindowError(q, xs, ys) / q` in exact arithmetic.

The bound is not strict. The tests reach it: with `q = 4` and demands
`[0, 1, 1, 1]` in `tests/test_properties.py`, and with the adversarial plan
of `tests/test_witness.py`. Under the tests' scaling, the example plan of
`examples/minimal.py` reaches it too: the plan sums to 9 with `q = 10`, so
its window error is exactly 0.9. The script's own printer divides every
demand by `q` twice, however, and prints 0.09 for that plan (see
"## Findings"). The model proves `≤ q − 1` together with its tightness.

For `MultiTokenLimiter`, a window deviation of at most `q − 1` holds,
because the remainder stays in `[0, q)` under the precondition
`0 ≤ x ≤ M·q`. This is stronger than the `M·(q − 1)` that the test checks.
`MultiRunWindowBound` proves both.

Determinism needs no lemma here. Every run is a function of `q`, the
starting remainder and the demands, so two limiters built the same way and
fed the same demands give equal emissions and equal final remainders.

## Model

| member | source | states |
|---|---|---|
| `Ledger.Telescoping` | core/limiter.py:34-38 | over any window `[s, t)` of a run whose ticks each satisfy `E_after = E_before + x − q·y`, `Σx − q·Σy` equals `E_t − E_s` |
| `Ledger.LedgerWindowBound` | core/limiter.py:15 | if every remainder of such a run is in `[0, q)`, every window deviates by at most `q − 1`, and so does the maximum window error |
| `Ledger.MaxWindowError` | tests/test_properties.py:8-23 | the result bounds `abs(Σx − q·Σy)` of every window, and it is 0 or is reached by some window: it is exactly the maximum window error, scaled by `q` |
| `Limiter.CarryStep` | core/limiter.py:34-38 | one tick on valid input keeps `0 ≤ E < q`, emits 0 or 1, and satisfies `E_after = E_before + x − q·y` |
| `Limiter.CarryStepIsDivMod` | core/limiter.py:34-38 | the tick is integer division: `y = (E + x) / q` and `E_after = (E + x) % q`; a token is emitted exactly when `E + x ≥ q` |
| `Limiter.Run` | tests/test_properties.py:52-53 | the run of a limiter over demands in `[0, q]`: every tick satisfies the ledger equation, every remainder is in `[0, q)`, and every emission is 0 or 1 |
| `Limiter.RunWindowBound` | tests/test_properties.py:41-56 | for all demands in `[0, q]` and any starting remainder in `[0, q)`, every window deviates by at most `q − 1`, so the maximum window error is at most `q − 1` (float `1 − 1/q`) |
| `Limiter.FirstTickReachesBound` | tests/test_witness.py:4-21 | a fresh run whose first demand is `q − 1` emits nothing on that tick, and its maximum window error is exactly `q − 1` |
| `Limiter.WindowReachingBoundIsMax` | tests/test_properties.py:36-38 | if one window of a run deviates by `q − 1`, the maximum window error of the run is exactly `q − 1` |
| `Limiter.NoTokenBeforeQ` | core/limiter.py:34-38 | while the starting remainder plus all demand so far stays below `q`, nothing is emitted, and the remainder is that running total |
| `Limiter.DemandJustBelowQIsTight` | examples/minimal.py:4-10 | demands summing to `q − 1` make a fresh limiter emit nothing and end with `E = q − 1`; the maximum window error is exactly `q − 1` |
| `Limiter.FairLimiter.constructor` | core/limiter.py:11-15 | for `q ≥ 2`, the new limiter stores `q` and starts with `E = 0` |
| `Limiter.FairLimiter.Create` | core/limiter.py:11-15 | construction fails with `InvalidGranularity` exactly when `q < 2`; otherwise it returns a fresh limiter with that `q` and `E = 0` |
| `Limiter.FairLimiter.Step` | core/limiter.py:17-38 | a demand outside `[0, q]` is refused with `OutOfRange` and leaves `E` unchanged; otherwise it returns the carry rule's count and `E` becomes its remainder; `0 ≤ E < q` is kept and `q` never changes |
| `Limiter.FairLimiter.Reset` | core/limiter.py:40-42 | `E` becomes 0 and `q` is kept |
| `Limiter.Feed` | sim/run_sim.py:82-83 | stepping a limiter through demands in `[0, q]` returns exactly `Run`'s emissions and leaves `E` at `Run`'s final remainder |
| `Limiter.ResetMatchesFresh` | core/limiter.py:40-42 | after `reset`, a limiter emits on any demands exactly what a freshly constructed limiter of the same `q` emits |
| `MultiToken.Drain` | tests/test_properties.py:76-79 | `k` rounds of the discharge test emit between 0 and `k` tokens, with `E_after = E_before − q·y`; fewer than `k` tokens only when `E_after < q`; nothing when `E < q`; `E` stays non-negative if it started so |
| `MultiToken.MultiStep` | tests/test_properties.py:73-80 | one multi-token tick on any input satisfies `E_after = E_before + x − q·y`, emits between 0 and `M` tokens (none when `M < 0`), keeps `E ≥ 0` when `E + x ≥ 0`, and, for `M ≥ 0`, ends with `E < q` or `y = M` |
| `MultiToken.MultiStepKeepsInvariant` | tests/test_properties.py:73-80 | `0 ≤ E < q` and `0 ≤ x ≤ M·q` imply `0 ≤ E_after < q` |
| `MultiToken.MultiStepIsDivMod` | tests/test_properties.py:73-80 | on those inputs the tick is integer division: `y = (E + x) / q` and `E_after = (E + x) % q` |
| `MultiToken.CapOneIsCarryStep` | tests/test_properties.py:59-62 | with `M = 1` and `x ∈ [0, q]`, the multi-token tick equals the single-token carry rule |
| `MultiToken.MultiRun` | tests/test_properties.py:83-84 | the run of a multi-token limiter over demands in `[0, M·q]`: ledger equation per tick, remainders in `[0, q)`, emissions in `[0, M]` |
| `MultiToken.CapOneRunIsRun` | tests/test_properties.py:59-63 | with `M = 1`, a whole multi-token run equals the single-token run, tick for tick |
| `MultiToken.MultiRunWindowBound` | tests/test_properties.py:86-87 | every window deviates by at most `q − 1`, and the maximum window error is at most `M·(q − 1)` (float `M·(1 − 1/q)`) |
| `MultiToken.MultiTokenLimiter.constructor` | tests/test_properties.py:68-71 | the new limiter stores `q` and `M` and starts with `E = 0` |
| `MultiToken.MultiTokenLimiter.Step` | tests/test_properties.py:73-80 | the loop of up to `M` discharges returns `MultiStep`'s count and leaves `E` at its remainder |
| `MultiToken.MultiFeed` | tests/test_properties.py:83-84 | stepping a multi-token limiter through demands in `[0, M·q]` returns exactly `MultiRun`'s emissions and its final remainder |
| `Witnesses.TightWitnessQ4` | tests/test_properties.py:26-38 | `q = 4`, demands `[0, 1, 1, 1]`: all outputs are 0, the whole run deviates by 3 = `q − 1`, and that is the maximum window error |
| `Witnesses.AdversarialPlan` | tests/test_witness.py:6 | the plan `([q−1]·(q−1) + [1])·reps` has length `q·reps`, lies in `[0, q]`, and starts with `q − 1` |
| `Witnesses.AdversarialPlanIsTight` | tests/test_witness.py:4-21 | for every `q ≥ 2` and `reps ≥ 1`, that plan through a fresh limiter has maximum window error exactly `q − 1` |
| `Witnesses.AdversarialPlanQ10` | tests/test_witness.py:23-25 | with `q = 10` and 50 periods, the maximum window error is 9 (float 0.9 = `1 − 1/q`) |
| `Witnesses.ExamplePlanEmitsNothing` | examples/minimal.py:4-10 | the example plan for `q = 10` emits nothing and ends with `E = 9` |
| `Witnesses.ExamplePlanIsTight` | examples/minimal.py:7-10 | under the tests' q-scaling, the example plan's maximum window error is 9 (0.9), exactly the bound |
| `Witnesses.ExamplePlanScriptError` | examples/minimal.py:12-21 | the script's own `max_window_err`, which divides by `q` twice, gives the q²-scaled maximum 9 for the example plan, that is 0.09 |
| `Limiter.DemandJustBelowQDoubleScaled` | examples/minimal.py:12-18 | for demands summing to `q − 1`, the maximum window error with demands divided by `q²` is also `q − 1` (over `q²`) |
| `Witnesses.MultiTokenRunQ10` | tests/test_properties.py:82-84 | `q = 10`, `M = 3`, demands `[0, 5, 10, 15, 0, 10]` emit `[0, 0, 1, 2, 0, 1]` |
| `Witnesses.MultiTokenScalingQ10` | tests/test_properties.py:82-87 | that run's maximum window error is at most `3·9` |

## Findings

| source | as written | input that shows it | evidently intended | confidence | as-written member | corrected member |
|---|---|---|---|---|---|---|
| examples/minimal.py:15-18 | the plan is divided by `q` at line 18, and `max_window_err` divides each demand by `q` again at line 15, so it computes `max abs(Σx/q² − Σy)` | `q = 10`, plan `[0, 3, 0, 1, 2, 0, 0, 1, 0, 2]`: prints 0.09 next to the bound 0.9 | `max abs(Σx/q − Σy)`, the tests' scaling: 0.9, equal to the bound `1 − 1/q` | high; not executed | `Witnesses.ExamplePlanScriptError` | `Witnesses.ExamplePlanIsTight` |

## Left out

- sim/run_sim.py is left out apart from the driving loop that `Feed` models. Argument parsing and printing are I/O. `gen_plan` draws random numbers and uses `math.sin`. Its float oracle is replaced by `MaxWindowError`.
- Witnesses.ExamplePlanIsTight: states the example plan's error in the tests' q-scaling, not the double-divided value the script prints; `ExamplePlanScriptError` states the printed value.
- Float window errors and the `1e-9` and `1e-6` tolerances are not modelled. Every error is stated in integer, q-scaled form.
- `FairLimiter.__repr__` is diagnostic formatting only.
- The seeded random runs of `test_random_sequences_bound` are not modelled. `RunWindowBound` states the bound for all demand sequences instead.
- `MultiTokenLimiter` validates nothing: not `q`, not `M`, and not the demand. The model does not add a range check either. Its invariant lemmas and `MultiRun` assume `0 ≤ x ≤ M·q` and a remainder in `[0, q)`. These are the conditions under which the source's loop keeps `E < q`.
- `Limiter.FairLimiter.constructor` requires `q ≥ 2`. The validating path of `__init__`, which raises `ValueError`, is `Create`.
- `MultiToken.MultiRunWindowBound` requires a cap `M ≥ 1`, as in the test (`M = 3`). For `M ≤ 0`, the source states no bound.
- Python integers are unbounded, and so are Dafny's. No wrap-around is needed.
- Concurrent use of one limiter is not modelled. The source is single-threaded.

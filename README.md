# Per-key stress simulation, modelled in Dafny

This project models the core of a chart "stress" simulator. The simulator
takes one key's rows. Each row has a time offset in milliseconds and an
event type tag. It walks the rows once, in order, carrying a single stress
value and the previous row's offset. For every row it computes the time
elapsed since the previous row. A row tagged `"NA"` only reports the decayed
stress and commits nothing. Any other row commits the decayed stress and
then a type-specific spike. The output is a table of three equally long
columns: the offsets, the post-decay stress of every row, and the post-spike
stress of every spike row. Slots the loop never writes keep the value -1.

Three Dafny files make up the model:

- `wrappers.dfy` (module `Wrappers`): `Option` and `Result`, which stand in
  for the exceptions of the C++ code.
- `parameters.dfy` (module `Parameters`): the two update rules of
  `src/cpp/parameters.cpp`.
  - `Decay` is `pow(stress / 1.5, duration / 1000)`. The constants are kept;
    `pow` is a function-typed parameter (`PowFn`), so nothing numeric about
    it is assumed.
  - `Spike` is `(stress + adds[t]) * mults[t]` over a table `Params` of two
    maps keyed by event type.
  - `TrySpike` makes the failing lookup of a missing type explicit.
- `stress_sim.dfy` (module `StressSim`): `cpp_simulate_key` of
  `src/cpp/stress_sim.cpp`.
  - `Step` is one row of the loop. `Run` folds `Step` over the first `n`
    rows, starting from the initial stress and an offset buffer of 0.
    `Simulate` assembles the output table.
  - `SimulateRows` is the loop itself over arrays. It allocates the two
    output columns filled with -1 and writes them in place row by row. It is
    proved to return exactly `Simulate` of its inputs. It has no `modifies`
    clause, so the input arrays are provably left unchanged.
  - `SimulateKey` adds the length check the source meant to have (see
    Findings).

Doubles are modelled as `real`. The parameter table is a value (`Params`),
so a spike can only read it, never change it. `Decay` is a Dafny function
of `(pow, stress, duration)`, so equal arguments give equal results. Both
facts hold by construction and need no lemma.

## Model

| member | source | states |
|---|---|---|
| `Parameters.TrySpike` | src/cpp/parameters.cpp:17-24 | the spike succeeds exactly when the type is a key of both the `adds` and the `mults` column, and then yields `(stress + adds[t]) * mults[t]`; a missing key is an error, never a default |
| `Parameters.SpikeAffine` | src/cpp/parameters.cpp:24 | the spike is affine in the stress: `Spike(s1,t) - Spike(s2,t) == (s1 - s2) * mults[t]` |
| `Parameters.SpikeNeutral` | src/cpp/parameters.cpp:24 | a type with `adds == 0` and `mults == 1` leaves the stress unchanged |
| `StressSim.Run` | src/cpp/stress_sim.cpp:36-63 | after `n` successful rows, both written columns have length `n`, and the offset buffer holds the offset of row `n-1` (0 before the first row) |
| `StressSim.Simulate` | src/cpp/stress_sim.cpp:26-69 | a successful run returns the input offsets as its offsets column, and all three columns have as many entries as there are offsets |
| `StressSim.EmptyKey` | src/cpp/stress_sim.cpp:26-41 | zero rows give three empty columns and no error |
| `StressSim.TwoRowExample` | src/cpp/stress_sim.cpp:41-63 | a decay-only row at offset 0 and then a spike of type "A" (adds 2, mults 0.5) at offset 1000, from stress 10: the output is `[pow(10/1.5, 0), d]` and `[-1, (d + 2) * 0.5]` with `d = pow(10/1.5, 1)` |
| `StressSim.RunPrefix` | src/cpp/stress_sim.cpp:41-63 | what the first `m` rows wrote is never rewritten by later rows |
| `StressSim.RunErrPersists` | src/cpp/stress_sim.cpp:58 | a failed lookup (the throwing name lookup of src/cpp/parameters.cpp:21-22, reached through the spike call) ends the run: every longer prefix fails with the same error, so no partial table is produced |
| `StressSim.RowEffect` | src/cpp/stress_sim.cpp:43-62 | row `i`'s base value is the decay of the stress carried into it over `offsets[i] - offsets[i-1]` (or `offsets[0] - 0` for the first row); an `"NA"` row keeps its spike slot at -1 and leaves the carried stress unchanged; a spike row has a known type, its spike value is the spike of its base value, and that spike value is the stress carried to the next row |
| `StressSim.CarriedStress` | src/cpp/stress_sim.cpp:22-59 | after any number of rows, the carried stress is the initial stress if no spike row has occurred, and otherwise the spike value of the most recent spike row |
| `StressSim.RunSucceeds` | src/cpp/stress_sim.cpp:53-58 | the run succeeds if and only if every non-`"NA"` row's type has coefficients; on failure the error names the first such row and its type |
| `StressSim.ExtraTypesIgnored` | src/cpp/stress_sim.cpp:29-44 | as written, type tags beyond the number of offsets never influence the result |
| `StressSim.FailsAt` | src/cpp/stress_sim.cpp:55-58 | a spike row with an unknown type, reached without an earlier error, makes the whole simulation fail with that row's error |
| `StressSim.SimulateRows` | src/cpp/stress_sim.cpp:20-72 | the in-place loop over arrays returns exactly the functional simulation of its inputs, the error included |
| `StressSim.SimulateKey` | src/cpp/stress_sim.cpp:26-30 | offsets and types of different lengths are rejected with a length error before any row runs; otherwise the result is the simulation |

## Left out

- The numeric value of `pow` (src/cpp/parameters.cpp:13). Floating-point
  exponentiation with a fractional exponent is left uninterpreted. So are
  its NaN results for a negative base and its value at `0^0`. No numeric
  fact about decay is claimed, such as `decay(x, 0) == 1`.
- IEEE double rounding in `(stress + adds) * mults` and in
  `offset - offset_buffer`: the model computes over exact reals.
- The 32-bit `unsigned int rows` (src/cpp/stress_sim.cpp:26): lengths are
  unbounded in the model, so truncation past 2^32 rows is not modelled.
- Offsets that decrease are accepted as in the source. Their negative
  durations are passed to `pow` unchanged.
- R interop: `DataFrame::create`, `clone`, `as<NumericVector>` and the
  conversion of `CharacterVector` elements to `std::string`. An R `NA` in
  `types` converts to the string `"NA"`, which is why the model compares
  tags with `"NA"`. The output table is three sequences.
- The construction of the `mapping` member of `Params`: parameters.h is not
  part of this model. `adds` and `mults` are given as maps. With duplicate
  names in an R vector, Rcpp's lookup finds the first; a map has one entry
  per key.
- The header comment's variant with `is_spikes`, `args_list` and
  caller-supplied rule functions (src/cpp/stress_sim.cpp:6-17). It describes
  code that is not the function shown. Only the signature
  `(offsets, types, stress)` is modelled.
- The default argument `stress = 0.0` of the R-facing signature
  (src/cpp/stress_sim.cpp:22): callers of `SimulateRows` and `SimulateKey`
  pass the initial stress explicitly.
- `SimulateRows`: when types are fewer than offsets, the C++ reads past the
  end of `types`, which is undefined behaviour. The model requires at least
  as many tags as offsets instead of modelling that read.

## Findings

| source | as written | input that shows it | evidently intended | confidence | as-written member | corrected member |
|---|---|---|---|---|---|---|
| src/cpp/stress_sim.cpp:29-30 | `assert((types.length() == rows, "..."))` applies the comma operator. The comparison is discarded and the asserted value is the message literal, a non-null pointer, so the check never fails. | 1 offset and 2 type tags: the run completes and the second tag is silently ignored. With 2 offsets and 1 tag the loop reads past the end of `types`. | reject offsets and types of different lengths before any row is processed | high, not executed | `StressSim.ExtraTypesIgnored` (with `StressSim.SimulateRows`, which needs only `offsets.Length <= types.Length`) | `StressSim.SimulateKey` |

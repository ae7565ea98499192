/** The per-key stress simulation (src/cpp/stress_sim.cpp): one pass over
    parallel columns of offsets and event types, carrying a single stress
    value and the previous offset from row to row.

    `Run` is the trajectory as a left fold over the rows, `SimulateRows` is
    the loop over arrays that writes the output columns in place, and the
    lemmas state what each row contributes. */
module StressSim {
  import opened Wrappers
  import opened Parameters

  /** The type tag of a row that only decays (an R `NA` reads as "NA"). */
  const NA: string := "NA"

  /** The value an output slot holds until the loop writes it. */
  const Unset: real := -1.0

  /** Why a run produces no output. */
  datatype SimError =
    | UnknownType(row: nat, tag: string)         // a spike row whose type has no coefficients
    | LengthMismatch(rows: nat, types: nat)      // offsets and types differ in length

  /** The input of one key: offsets, type tags and the initial stress. */
  datatype KeyInput = KeyInput(offsets: seq<real>, types: seq<string>, stress: real)
  {
    /** The first `n` rows exist in both columns. */
    predicate Fits(n: nat)
    {
      n <= |offsets| && n <= |types|
    }

    /** The offset that row `n` measures its duration from: the previous
        row's offset, or 0 for the first row. */
    function PrevOffset(n: nat): real
      requires n <= |offsets|
    {
      if n == 0 then 0.0 else offsets[n - 1]
    }

    /** The time elapsed before row `i`. */
    function Duration(i: nat): real
      requires i < |offsets|
    {
      offsets[i] - PrevOffset(i)
    }
  }

  /** The loop's state after a prefix of the rows: the carried stress, the
      offset buffer, and the `stress` and `stress_spikes` columns so far. */
  datatype Trace = Trace(stress: real, offsetBuffer: real, base: seq<real>, spike: seq<real>)

  /** The output table: the offsets column and the two stress columns. */
  datatype StressFrame = StressFrame(offsets: seq<real>, stress: seq<real>, stressSpikes: seq<real>)

  /** A row whose type needs no lookup or has its coefficients. */
  predicate Resolves(p: Params, t: string)
  {
    t == NA || p.Knows(t)
  }

  /** One row of the loop. A decay-only row reports the decayed stress and
      commits nothing; a spike row commits the decayed stress and then the
      spiked one. Either way the row's offset becomes the buffer. */
  function Step(p: Params, pow: PowFn, t: Trace, row: nat, offset: real, ty: string): Result<Trace, SimError>
  {
    var decayed := Decay(pow, t.stress, offset - t.offsetBuffer);
    if ty == NA then
      Ok(Trace(t.stress, offset, t.base + [decayed], t.spike + [Unset]))
    else
      match TrySpike(p, decayed, ty)
      case None => Err(UnknownType(row, ty))
      case Some(spiked) => Ok(Trace(spiked, offset, t.base + [decayed], t.spike + [spiked]))
  }

  /** The trajectory after the first `n` rows, starting from the initial
      stress and an offset buffer of 0. */
  function Run(p: Params, pow: PowFn, input: KeyInput, n: nat): (r: Result<Trace, SimError>)
    requires input.Fits(n)
    ensures r.Ok? ==> |r.value.base| == n && |r.value.spike| == n
    ensures r.Ok? ==> r.value.offsetBuffer == input.PrevOffset(n)
    decreases n
  {
    if n == 0 then
      Ok(Trace(input.stress, 0.0, [], []))
    else
      match Run(p, pow, input, n - 1)
      case Err(e) => Err(e)
      case Ok(t) => Step(p, pow, t, n - 1, input.offsets[n - 1], input.types[n - 1])
  }

  /** The whole simulation of one key: every offset row, assembled into the
      output table, or the first error. */
  function Simulate(p: Params, pow: PowFn, input: KeyInput): (r: Result<StressFrame, SimError>)
    requires |input.offsets| <= |input.types|
    ensures r.Ok? ==> r.value.offsets == input.offsets
    ensures r.Ok? ==> |r.value.stress| == |input.offsets| && |r.value.stressSpikes| == |input.offsets|
  {
    match Run(p, pow, input, |input.offsets|)
    case Err(e) => Err(e)
    case Ok(t) => Ok(StressFrame(input.offsets, t.base, t.spike))
  }

  /** A key with no rows gives three empty columns and no error. */
  lemma EmptyKey(p: Params, pow: PowFn, types: seq<string>, stress: real)
    ensures Simulate(p, pow, KeyInput([], types, stress)) == Ok(StressFrame([], [], []))
  {
  }

  /** Two rows from an initial stress of 10: a decay-only row at offset 0,
      then a spike of type "A" (adds 2, mults 0.5) at offset 1000. The first
      row reports pow(10/1.5, 0) and keeps 10; the second decays 10 over
      1000 ms and spikes the result, which becomes the carried stress. */
  lemma TwoRowExample(pow: PowFn)
    ensures var p := Params(map["A" := 2.0], map["A" := 0.5]);
            var decayed := pow(10.0 / 1.5, 1.0);
            var out := StressFrame([0.0, 1000.0], [pow(10.0 / 1.5, 0.0), decayed], [Unset, (decayed + 2.0) * 0.5]);
            Simulate(p, pow, KeyInput([0.0, 1000.0], [NA, "A"], 10.0)) == Ok(out)
  {
    var p := Params(map["A" := 2.0], map["A" := 0.5]);
    var input := KeyInput([0.0, 1000.0], [NA, "A"], 10.0);
    var decayed := pow(10.0 / 1.5, 1.0);
    assert [] + [pow(10.0 / 1.5, 0.0)] == [pow(10.0 / 1.5, 0.0)];
    assert [] + [Unset] == [Unset];
    assert Run(p, pow, input, 1) == Ok(Trace(10.0, 0.0, [pow(10.0 / 1.5, 0.0)], [Unset]));
    assert [pow(10.0 / 1.5, 0.0)] + [decayed] == [pow(10.0 / 1.5, 0.0), decayed];
    assert [Unset] + [(decayed + 2.0) * 0.5] == [Unset, (decayed + 2.0) * 0.5];
    assert p.Knows("A") && Spike(p, decayed, "A") == (decayed + 2.0) * 0.5;
    assert Run(p, pow, input, 2)
        == Ok(Trace((decayed + 2.0) * 0.5, 1000.0, [pow(10.0 / 1.5, 0.0), decayed], [Unset, (decayed + 2.0) * 0.5]));
  }

  /** What the first `m` rows produced is kept unchanged by the later ones. */
  lemma {:induction false} RunPrefix(p: Params, pow: PowFn, input: KeyInput, m: nat, n: nat)
    requires m <= n && input.Fits(n)
    requires Run(p, pow, input, n).Ok?
    ensures Run(p, pow, input, m).Ok?
    ensures Run(p, pow, input, m).value.base == Run(p, pow, input, n).value.base[..m]
    ensures Run(p, pow, input, m).value.spike == Run(p, pow, input, n).value.spike[..m]
    decreases n - m
  {
    if m < n {
      RunPrefix(p, pow, input, m, n - 1);
      var before := Run(p, pow, input, n - 1).value;
      var after := Run(p, pow, input, n).value;
      assert after.base[..m] == before.base[..m];
      assert after.spike[..m] == before.spike[..m];
    }
  }

  /** An error stops the run: once some prefix fails, every longer one
      fails with the same error. */
  lemma {:induction false} RunErrPersists(p: Params, pow: PowFn, input: KeyInput, m: nat, n: nat)
    requires m <= n && input.Fits(n)
    requires Run(p, pow, input, m).Err?
    ensures Run(p, pow, input, n) == Run(p, pow, input, m)
    decreases n - m
  {
    if m < n {
      RunErrPersists(p, pow, input, m, n - 1);
    }
  }

  /** What row `i` contributes. Its base value is the decay of the stress
      carried into it over the time since the previous row. A decay-only
      row leaves its spike slot at -1 and the carried stress unchanged. A
      spike row's type has coefficients, its spike value is the spike of
      its base value, and that spike value is the stress carried onward. */
  lemma RowEffect(p: Params, pow: PowFn, input: KeyInput, i: nat)
    requires |input.offsets| <= |input.types| && i < |input.offsets|
    requires Simulate(p, pow, input).Ok?
    ensures Run(p, pow, input, i).Ok? && Run(p, pow, input, i + 1).Ok?
    ensures var before := Run(p, pow, input, i).value.stress;
            var after := Run(p, pow, input, i + 1).value.stress;
            var out := Simulate(p, pow, input).value;
            out.stress[i] == Decay(pow, before, input.Duration(i)) &&
            (input.types[i] == NA ==> out.stressSpikes[i] == Unset && after == before) &&
            (input.types[i] != NA ==>
               p.Knows(input.types[i]) &&
               out.stressSpikes[i] == Spike(p, out.stress[i], input.types[i]) &&
               after == out.stressSpikes[i])
  {
    RunPrefix(p, pow, input, i + 1, |input.offsets|);
    RunPrefix(p, pow, input, i, i + 1);
    var out := Run(p, pow, input, |input.offsets|).value;
    var t := Run(p, pow, input, i + 1).value;
    assert out.base[i] == t.base[i];
    assert out.spike[i] == t.spike[i];
  }

  /** The stress carried out of the first `n` rows is the initial stress
      while no spike row has occurred, and otherwise the spike value of the
      most recent spike row. */
  lemma {:induction false} CarriedStress(p: Params, pow: PowFn, input: KeyInput, n: nat)
    requires input.Fits(n)
    requires Run(p, pow, input, n).Ok?
    ensures (forall i :: 0 <= i < n ==> input.types[i] == NA) ==>
              Run(p, pow, input, n).value.stress == input.stress
    ensures forall k :: 0 <= k < n && input.types[k] != NA &&
                        (forall i :: k < i < n ==> input.types[i] == NA) ==>
              Run(p, pow, input, n).value.stress == Run(p, pow, input, n).value.spike[k]
  {
    if n > 0 {
      CarriedStress(p, pow, input, n - 1);
      var before := Run(p, pow, input, n - 1).value;
      var after := Run(p, pow, input, n).value;
      if input.types[n - 1] == NA {
        assert after.stress == before.stress;
        forall k | 0 <= k < n - 1
          ensures after.spike[k] == before.spike[k]
        {
        }
      } else {
        assert after.stress == after.spike[n - 1];
      }
    }
  }

  /** The run succeeds exactly when every spike row's type has
      coefficients; when it fails, the error names the first row that
      does not resolve and that row's type. */
  lemma {:induction false} RunSucceeds(p: Params, pow: PowFn, input: KeyInput, n: nat)
    requires input.Fits(n)
    ensures Run(p, pow, input, n).Ok? <==> forall i :: 0 <= i < n ==> Resolves(p, input.types[i])
    ensures Run(p, pow, input, n).Err? ==>
              var e := Run(p, pow, input, n).error;
              e.UnknownType? && e.row < n && e.tag == input.types[e.row] &&
              !Resolves(p, e.tag) &&
              forall j :: 0 <= j < e.row ==> Resolves(p, input.types[j])
  {
    if n > 0 {
      RunSucceeds(p, pow, input, n - 1);
    }
  }

  /** As written, the loop reads only as many type tags as there are
      offsets: tags beyond that are ignored without any complaint. */
  lemma {:induction false} ExtraTypesIgnored(p: Params, pow: PowFn, input: KeyInput, extra: seq<string>, n: nat)
    requires input.Fits(n)
    ensures Run(p, pow, KeyInput(input.offsets, input.types + extra, input.stress), n)
         == Run(p, pow, input, n)
  {
    if n > 0 {
      ExtraTypesIgnored(p, pow, input, extra, n - 1);
      assert (input.types + extra)[n - 1] == input.types[n - 1];
    }
  }

  /** Row `n` of a successful prefix: it appends its base value `b` and
      spike slot `s` to the columns and carries `stress` onward, as the
      row's type dictates. */
  lemma RunNext(p: Params, pow: PowFn, input: KeyInput, n: nat, b: real, s: real, stress: real)
    requires input.Fits(n + 1) && Run(p, pow, input, n).Ok?
    requires var t := Run(p, pow, input, n).value;
             b == Decay(pow, t.stress, input.offsets[n] - t.offsetBuffer) &&
             (input.types[n] == NA ==> s == Unset && stress == t.stress) &&
             (input.types[n] != NA ==> p.Knows(input.types[n]) && s == Spike(p, b, input.types[n]) && stress == s)
    ensures var t := Run(p, pow, input, n).value;
            Run(p, pow, input, n + 1) == Ok(Trace(stress, input.offsets[n], t.base + [b], t.spike + [s]))
  {
  }

  /** A spike row whose type has no coefficients, reached by a successful
      prefix, makes the whole simulation fail with that row's error. */
  lemma FailsAt(p: Params, pow: PowFn, input: KeyInput, n: nat)
    requires n < |input.offsets| <= |input.types| && Run(p, pow, input, n).Ok?
    requires input.types[n] != NA && !p.Knows(input.types[n])
    ensures Simulate(p, pow, input) == Err(UnknownType(n, input.types[n]))
  {
    RunErrPersists(p, pow, input, n + 1, |input.offsets|);
  }

  /** The loop of `cpp_simulate_key`, as written: it relies on its caller
      for at least as many type tags as offsets. The two output columns
      start filled with -1 and are written in place row by row; the input
      arrays are only read. */
  method SimulateRows(p: Params, pow: PowFn, offsets: array<real>, types: array<string>, initStress: real)
    returns (res: Result<StressFrame, SimError>)
    requires offsets.Length <= types.Length
    ensures res == Simulate(p, pow, KeyInput(offsets[..], types[..], initStress))
  {
    ghost var input := KeyInput(offsets[..], types[..], initStress);
    var rows := offsets.Length;
    var stressBase := new real[rows](_ => Unset);
    var stressSpike := new real[rows](_ => Unset);
    var stress := initStress;
    var offsetBuffer := 0.0;
    ghost var trace := Trace(stress, offsetBuffer, [], []);
    for row := 0 to rows
      invariant Run(p, pow, input, row) == Ok(trace)
      invariant trace.stress == stress && trace.offsetBuffer == offsetBuffer
      invariant trace.base == stressBase[..row] && trace.spike == stressSpike[..row]
      invariant forall j :: row <= j < rows ==> stressSpike[j] == Unset
    {
      var offset := offsets[row];
      var tag := types[row];
      var duration := offset - offsetBuffer;
      if tag == NA {
        stressBase[row] := Decay(pow, stress, duration);
      } else {
        stress := Decay(pow, stress, duration);
        stressBase[row] := stress;
        var spiked := TrySpike(p, stress, tag);
        if spiked.None? {
          res := Err(UnknownType(row, tag));
          FailsAt(p, pow, input, row);
          return;
        }
        stress := spiked.value;
        stressSpike[row] := stress;
      }
      RunNext(p, pow, input, row, stressBase[row], stressSpike[row], stress);
      assert stressBase[..row + 1] == trace.base + [stressBase[row]];
      assert stressSpike[..row + 1] == trace.spike + [stressSpike[row]];
      trace := Trace(stress, offset, stressBase[..row + 1], stressSpike[..row + 1]);
      offsetBuffer := offset;
    }
    assert stressBase[..rows] == stressBase[..];
    assert stressSpike[..rows] == stressSpike[..];
    res := Ok(StressFrame(offsets[..], stressBase[..], stressSpike[..]));
  }

  /** The simulation with the length check its author meant to have:
      offsets and types of different lengths are rejected before any row
      is processed; otherwise the rows are simulated as above. */
  method SimulateKey(p: Params, pow: PowFn, offsets: array<real>, types: array<string>, initStress: real)
    returns (res: Result<StressFrame, SimError>)
    ensures offsets.Length != types.Length ==> res == Err(LengthMismatch(offsets.Length, types.Length))
    ensures offsets.Length == types.Length ==> res == Simulate(p, pow, KeyInput(offsets[..], types[..], initStress))
  {
    if offsets.Length != types.Length {
      return Err(LengthMismatch(offsets.Length, types.Length));
    }
    res := SimulateRows(p, pow, offsets, types, initStress);
  }
}

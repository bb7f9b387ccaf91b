/**
  The Monte Carlo stopping loop.  The sampler is a function of the iteration's index, as its generator is
  seeded from that index alone; stability is any predicate on the samples collected so far.
 */
module MonteCarlo {
  import opened Wrappers

  type Metrics = seq<(string, real)>
  type Samples = map<string, seq<real>>

  datatype Settings = Settings(minIterations: int, maxIterations: nat, checkEvery: int)

  datatype Collected = Collected(iterationsRun: nat, samples: Samples)

  datatype Error = DivisionByZero

  /** `samples.setdefault(key, []).append(value)`. */
  function Recorded(samples: Samples, key: string, value: real): Samples {
    samples[key := (if key in samples then samples[key] else []) + [value]]
  }

  function RecordedAll(samples: Samples, result: Metrics, n: nat): Samples
    requires n <= |result|
  {
    if n == 0 then samples
    else Recorded(RecordedAll(samples, result, n - 1), result[n - 1].0, result[n - 1].1)
  }

  /** What the first `n` iterations record. */
  function SamplesAfter(sample: nat -> Metrics, n: nat): Samples {
    if n == 0 then map[]
    else RecordedAll(SamplesAfter(sample, n - 1), sample(n - 1), |sample(n - 1)|)
  }

  /** After `n` iterations the loop looks at the samples. */
  predicate Checked(s: Settings, n: nat) {
    n >= s.minIterations && s.checkEvery != 0 && n % s.checkEvery == 0
  }

  /** After `n` iterations the loop looks, and stops. */
  predicate Stops(s: Settings, sample: nat -> Metrics, stable: Samples -> bool, n: nat) {
    n > 0 && Checked(s, n) && stable(SamplesAfter(sample, n))
  }

  /** `n` is where the run ends: the first place to stop within the cap, or else the cap. */
  ghost predicate Ends(s: Settings, sample: nat -> Metrics, stable: Samples -> bool, n: nat) {
    && n <= s.maxIterations
    && (forall k: nat :: k < n ==> !Stops(s, sample, stable, k))
    && (n < s.maxIterations ==> Stops(s, sample, stable, n))
  }

  method RunUntilStable(s: Settings, sample: nat -> Metrics, stable: Samples -> bool)
    returns (r: Result<Collected, Error>)
    ensures r.Err? <==> s.checkEvery == 0 && 1 <= s.maxIterations && s.minIterations <= s.maxIterations
    ensures r.Ok? ==>
      && Ends(s, sample, stable, r.value.iterationsRun)
      && r.value.samples == SamplesAfter(sample, r.value.iterationsRun)
  {
    var samples: Samples := map[];
    var iterationsRun := 0;
    for i := 0 to s.maxIterations
      invariant iterationsRun == i && samples == SamplesAfter(sample, i)
      invariant s.checkEvery == 0 && i > 0 ==> i < s.minIterations
      invariant forall k: nat :: k <= i ==> !Stops(s, sample, stable, k)
    {
      var result := sample(i);
      ghost var before := samples;
      for j := 0 to |result|
        invariant samples == RecordedAll(before, result, j)
      {
        var key, value := result[j].0, result[j].1;
        if key !in samples {
          samples := samples[key := []];
        }
        samples := samples[key := samples[key] + [value]];
        assert samples == Recorded(RecordedAll(before, result, j), key, value);
      }
      iterationsRun := iterationsRun + 1;
      if iterationsRun >= s.minIterations {
        if s.checkEvery == 0 {
          return Err(DivisionByZero);
        }
        if iterationsRun % s.checkEvery == 0 && stable(samples) {
          break;
        }
      }
    }
    r := Ok(Collected(iterationsRun, samples));
  }

  predicate StableAt(sample: nat -> Metrics, stable: Samples -> bool, n: nat) {
    stable(SamplesAfter(sample, n))
  }

  predicate IsCheck(s: Settings, n: nat) {
    1 <= n && s.minIterations <= n && s.checkEvery != 0 && n % s.checkEvery == 0
  }

  /**
    Where a run ends, in the settings: at the cap, or before it at a count that is at least the minimum, a
    multiple of the check interval, and stable; and at no such count earlier.
   */
  lemma EndsAtFirstStableCheck(s: Settings, sample: nat -> Metrics, stable: Samples -> bool, n: nat)
    ensures Ends(s, sample, stable, n) <==>
      && n <= s.maxIterations
      && (n < s.maxIterations ==> IsCheck(s, n) && StableAt(sample, stable, n))
      && forall k: nat :: k < n && IsCheck(s, k) ==> !StableAt(sample, stable, k)
  {
    forall k: nat ensures Stops(s, sample, stable, k) <==> IsCheck(s, k) && StableAt(sample, stable, k) {
    }
  }

  // ----- Reproducibility -----

  function ValuesOf(result: Metrics, key: string): seq<real> {
    if result == [] then []
    else
      var last := result[|result| - 1];
      ValuesOf(result[..|result| - 1], key) + if last.0 == key then [last.1] else []
  }

  /** The values of one metric over the first `n` iterations, in iteration order. */
  function History(sample: nat -> Metrics, n: nat, key: string): seq<real> {
    if n == 0 then [] else History(sample, n - 1, key) + ValuesOf(sample(n - 1), key)
  }

  function Listed(samples: Samples, key: string): seq<real> {
    if key in samples then samples[key] else []
  }

  lemma {:induction false} RecordedAllLists(samples: Samples, result: Metrics, n: nat, key: string)
    requires n <= |result|
    ensures Listed(RecordedAll(samples, result, n), key) == Listed(samples, key) + ValuesOf(result[..n], key)
  {
    if n > 0 {
      RecordedAllLists(samples, result, n - 1, key);
      assert result[..n][..n - 1] == result[..n - 1];
    }
  }

  /** Every metric lists exactly its values, iteration by iteration: no iteration's value is lost or moved. */
  lemma {:induction false} SamplesAreHistories(sample: nat -> Metrics, n: nat, key: string)
    ensures Listed(SamplesAfter(sample, n), key) == History(sample, n, key)
  {
    if n > 0 {
      SamplesAreHistories(sample, n - 1, key);
      var result := sample(n - 1);
      RecordedAllLists(SamplesAfter(sample, n - 1), result, |result|, key);
      assert result[..|result|] == result;
    }
  }

  lemma {:induction false} HistoryExtends(sample: nat -> Metrics, m: nat, n: nat, key: string)
    requires m <= n
    ensures History(sample, m, key) <= History(sample, n, key)
  {
    if m < n {
      HistoryExtends(sample, m, n - 1, key);
    }
  }

  /**
    Raising the cap never disturbs a run: it runs no fewer iterations and only appends to every metric, and
    if the capped run had stopped because it was stable, the longer one is identical.  With equal caps this
    says that where a run ends is determined.
   */
  lemma LargerCapOnlyExtends(
      s: Settings, cap: nat, sample: nat -> Metrics, stable: Samples -> bool, m: nat, n: nat, key: string)
    requires s.maxIterations <= cap
    requires Ends(s, sample, stable, m) && Ends(s.(maxIterations := cap), sample, stable, n)
    ensures m <= n
    ensures Listed(SamplesAfter(sample, m), key) <= Listed(SamplesAfter(sample, n), key)
    ensures Stops(s, sample, stable, m) ==> n == m
  {
    var larger := s.(maxIterations := cap);
    assert n < m ==> Stops(larger, sample, stable, n) && Stops(s, sample, stable, n);
    assert Stops(s, sample, stable, m) ==> Stops(larger, sample, stable, m);
    HistoryExtends(sample, m, n, key);
    SamplesAreHistories(sample, m, key);
    SamplesAreHistories(sample, n, key);
  }
}

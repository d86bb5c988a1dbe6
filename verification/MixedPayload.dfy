/** Mixing payload providers by frequency.  Frequencies and the random number are real numbers. */
module MixedPayload {
  import opened Words

  function Sum(fs: seq<real>): real { if fs == [] then 0.0 else Sum(fs[..|fs| - 1]) + fs[|fs| - 1] }

  ghost predicate AllPositive(fs: seq<real>) { forall k :: 0 <= k < |fs| ==> fs[k] > 0.0 }

  /** `at` are the positions of the settings that take part: the positive ones, in order. */
  ghost predicate Selects(settings: seq<Option<real>>, at: seq<nat>, fs: seq<real>) {
    && |at| == |fs|
    && (forall k :: 0 <= k < |at| ==> at[k] < |settings| && settings[at[k]] == Some(fs[k]))
    && (forall j, k :: 0 <= j < k < |at| ==> at[j] < at[k])
    && (forall i :: 0 <= i < |settings| && settings[i].Some? && settings[i].value > 0.0 ==> i in at)
  }

  /** Only payloads configured with a positive frequency take part, in order; None is the error when there are none. */
  method Configured(settings: seq<Option<real>>) returns (fs: Option<seq<real>>, ghost at: seq<nat>)
    ensures fs.None? <==> forall k :: 0 <= k < |settings| ==> settings[k].None? || settings[k].value <= 0.0
    ensures fs.Some? ==> fs.value != [] && AllPositive(fs.value) && Selects(settings, at, fs.value)
  {
    var kept: seq<real> := [];
    at := [];
    for i := 0 to |settings|
      invariant AllPositive(kept) && Selects(settings[..i], at, kept)
      invariant kept == [] <==> forall k :: 0 <= k < i ==> settings[k].None? || settings[k].value <= 0.0
    {
      if settings[i].Some? && settings[i].value > 0.0 {
        SelectsOne(settings, i, at, kept);
        at := at + [i];
        kept := kept + [settings[i].value];
      } else {
        SelectsNone(settings, i, at, kept);
      }
    }
    assert settings[..|settings|] == settings;
    fs := if kept == [] then None else Some(kept);
  }

  lemma SelectsNone(settings: seq<Option<real>>, i: nat, at: seq<nat>, fs: seq<real>)
    requires i < |settings| && (settings[i].None? || settings[i].value <= 0.0) && Selects(settings[..i], at, fs)
    ensures Selects(settings[..i + 1], at, fs)
  {
    assert forall j :: 0 <= j < i ==> settings[..i][j] == settings[j];
  }

  lemma SelectsOne(settings: seq<Option<real>>, i: nat, at: seq<nat>, fs: seq<real>)
    requires i < |settings| && settings[i].Some? && Selects(settings[..i], at, fs)
    ensures Selects(settings[..i + 1], at + [i], fs + [settings[i].value])
  {
    var at' := at + [i];
    forall j | 0 <= j < i + 1 && settings[j].Some? && settings[j].value > 0.0 ensures j in at' {
      if j < i {
        assert settings[..i][j] == settings[j];
      } else {
        assert at'[|at|] == i;
      }
    }
    forall k | 0 <= k < |at'| ensures at'[k] < i + 1 && settings[at'[k]] == Some((fs + [settings[i].value])[k]) {
      if k < |at| {
        assert settings[..i][at[k]] == settings[at[k]];
      }
    }
  }

  lemma {:induction false} SumPositive(fs: seq<real>)
    requires AllPositive(fs)
    ensures Sum(fs) >= 0.0 && (fs != [] ==> Sum(fs) > 0.0)
  {
    if fs != [] {
      SumPositive(fs[..|fs| - 1]);
    }
  }

  /** Each frequency divided by their total; an all-zero list is returned as it is. */
  method NormalizeFrequencies(fs: seq<real>) returns (normalized: seq<real>)
    ensures |normalized| == |fs|
    ensures Sum(fs) == 0.0 ==> normalized == fs
    ensures Sum(fs) != 0.0 ==> normalized == Normalized(fs)
    ensures Sum(fs) != 0.0 ==> forall k :: 0 <= k < |fs| ==> Times(fs[k], normalized[k], Sum(fs))
  {
    var total := 0.0;
    for i := 0 to |fs|
      invariant total == Sum(fs[..i])
    {
      assert fs[..i + 1][..i] == fs[..i];
      total := total + fs[i];
    }
    assert fs[..|fs|] == fs;
    if total == 0.0 {
      return fs;
    }
    normalized := [];
    for i := 0 to |fs|
      invariant |normalized| == i && forall k :: 0 <= k < i ==> normalized[k] == fs[k] / total
      invariant forall k :: 0 <= k < i ==> Times(fs[k], normalized[k], total)
    {
      ShareOf(fs[i], total);
      normalized := normalized + [fs[i] / total];
    }
  }

  lemma ShareOf(x: real, total: real)
    requires total != 0.0
    ensures Times(x, x / total, total)
  {
  }

  function Normalized(fs: seq<real>): seq<real>
    requires Sum(fs) != 0.0
  {
    seq(|fs|, k requires 0 <= k < |fs| => fs[k] / Sum(fs))
  }

  predicate Times(x': real, x: real, c: real) { x' == x * c }

  /** gs is fs with every frequency multiplied by c. */
  ghost predicate ScaledBy(fs: seq<real>, c: real, gs: seq<real>) {
    |fs| == |gs| && forall k :: 0 <= k < |fs| ==> Times(gs[k], fs[k], c)
  }

  lemma {:induction false} ScaledSum(fs: seq<real>, c: real, gs: seq<real>)
    requires ScaledBy(fs, c, gs)
    ensures Sum(gs) == Sum(fs) * c
  {
    if fs != [] {
      var n := |fs| - 1;
      ScaledSum(fs[..n], c, gs[..n]);
      assert Times(gs[n], fs[n], c);
      assert Sum(fs) * c == Sum(fs[..n]) * c + fs[n] * c;
    }
  }

  lemma InverseOf(s: real)
    requires s > 0.0
    ensures 1.0 / s > 0.0 && s * (1.0 / s) == 1.0
  {
  }

  lemma ShareAsTimes(x: real, s: real)
    requires s > 0.0
    ensures x / s == x * (1.0 / s) && (x > 0.0 ==> x / s > 0.0)
  {
  }

  /** Normalised positive frequencies are positive and add up to one. */
  lemma NormalizedSumsToOne(fs: seq<real>)
    requires fs != [] && AllPositive(fs)
    ensures Sum(fs) > 0.0 && AllPositive(Normalized(fs)) && Sum(Normalized(fs)) == 1.0
  {
    SumPositive(fs);
    SharesAsTimes(fs, Sum(fs), Normalized(fs));
    SumOfShares(fs, Sum(fs), Normalized(fs));
  }

  lemma SharesAsTimes(fs: seq<real>, s: real, gs: seq<real>)
    requires s > 0.0 && AllPositive(fs) && |gs| == |fs| && forall k :: 0 <= k < |fs| ==> gs[k] == fs[k] / s
    ensures ScaledBy(fs, 1.0 / s, gs) && AllPositive(gs)
  {
    forall k | 0 <= k < |fs| ensures Times(gs[k], fs[k], 1.0 / s) && gs[k] > 0.0 {
      ShareAsTimes(fs[k], s);
    }
  }

  lemma SumOfShares(fs: seq<real>, s: real, gs: seq<real>)
    requires s == Sum(fs) && s > 0.0 && ScaledBy(fs, 1.0 / s, gs)
    ensures Sum(gs) == 1.0
  {
    ScaledSum(fs, 1.0 / s, gs);
    InverseOf(s);
  }

  lemma SameShare(x: real, x': real, y: real, y': real, c: real)
    requires y > 0.0 && c > 0.0 && Times(x', x, c) && Times(y', y, c)
    ensures y' > 0.0 && x' / y' == x / y && (x > 0.0 ==> x' > 0.0)
  {
    assert (x / y) * y' == x';
  }

  /** Scaling all frequencies changes nothing. */
  lemma ScaleInvariant(fs: seq<real>, c: real, gs: seq<real>)
    requires fs != [] && AllPositive(fs) && c > 0.0
    requires ScaledBy(fs, c, gs)
    ensures AllPositive(gs) && Sum(fs) != 0.0 && Sum(gs) != 0.0 && Normalized(gs) == Normalized(fs)
  {
    SumPositive(fs);
    ScaledSum(fs, c, gs);
    assert Times(Sum(gs), Sum(fs), c);
    SameShares(fs, c, gs, Sum(fs), Sum(gs));
  }

  lemma SameShares(fs: seq<real>, c: real, gs: seq<real>, y: real, y': real)
    requires ScaledBy(fs, c, gs) && AllPositive(fs) && fs != [] && c > 0.0 && y > 0.0 && Times(y', y, c)
    ensures y' > 0.0 && AllPositive(gs) && forall k :: 0 <= k < |fs| ==> gs[k] / y' == fs[k] / y
  {
    SameShare(fs[0], gs[0], y, y', c);
    forall k | 0 <= k < |fs| ensures gs[k] > 0.0 && gs[k] / y' == fs[k] / y {
      SameShare(fs[k], gs[k], y, y', c);
    }
  }

  // ----- selection

  /** The sum of the frequencies up to and including provider k. */
  function Through(fs: seq<real>, k: nat): real
    requires k < |fs|
  {
    Sum(fs[..k + 1])
  }

  /** The first provider whose cumulative frequency reaches r. */
  ghost predicate FirstReached(fs: seq<real>, r: real, i: nat)
    requires i < |fs|
  {
    r <= Through(fs, i) && forall k :: 0 <= k < i ==> Through(fs, k) < r
  }

  /** `fellThrough` tells whether the last provider was taken because no cumulative frequency reached r. */
  method SelectProvider(fs: seq<real>, r: real) returns (i: nat, fellThrough: bool)
    requires fs != []
    ensures i < |fs|
    ensures !fellThrough ==> FirstReached(fs, r, i)
    ensures fellThrough ==> i == |fs| - 1 && forall k :: 0 <= k < |fs| ==> Through(fs, k) < r
  {
    var cumulative := 0.0;
    for k := 0 to |fs|
      invariant cumulative == Sum(fs[..k]) && forall m :: 0 <= m < k ==> Through(fs, m) < r
    {
      assert fs[..k + 1][..k] == fs[..k];
      cumulative := cumulative + fs[k];
      if r <= cumulative {
        return k, false;
      }
    }
    i, fellThrough := |fs| - 1, true;
  }

  /** The interval of numbers for provider i: above the frequencies before it, up to and including its own. */
  ghost predicate InShare(fs: seq<real>, r: real, i: nat)
    requires i < |fs|
  {
    (i == 0 || Sum(fs[..i]) < r) && r <= Through(fs, i)
  }

  lemma {:induction false} PrefixSumsIncrease(fs: seq<real>, i: nat, j: nat)
    requires AllPositive(fs) && i <= j <= |fs|
    ensures Sum(fs[..i]) <= Sum(fs[..j])
    decreases j - i
  {
    if i < j {
      PrefixSumsIncrease(fs, i, j - 1);
      assert fs[..j][..j - 1] == fs[..j - 1];
    }
  }

  /** Selection by intervals: their widths are the frequencies, and no number lies in two of them. */
  lemma SelectionPartitions(fs: seq<real>, r: real, i: nat, j: nat)
    requires AllPositive(fs) && i < |fs| && j < |fs|
    ensures FirstReached(fs, r, i) <==> InShare(fs, r, i)
    ensures Through(fs, i) - Sum(fs[..i]) == fs[i]
    ensures InShare(fs, r, i) && InShare(fs, r, j) ==> i == j
  {
    assert fs[..i + 1][..i] == fs[..i];
    if InShare(fs, r, i) {
      forall k | 0 <= k < i ensures Through(fs, k) < r {
        PrefixSumsIncrease(fs, k + 1, i);
      }
    }
    if FirstReached(fs, r, i) && i > 0 {
      assert Through(fs, i - 1) < r;
    }
    if i < j {
      PrefixSumsIncrease(fs, i + 1, j);
    } else if j < i {
      PrefixSumsIncrease(fs, j + 1, i);
    }
  }

  /** With normalised positive frequencies some provider is always reached: the fallback is never needed. */
  lemma FallbackNeverNeeded(fs: seq<real>, r: real)
    requires fs != [] && AllPositive(fs) && 0.0 <= r <= 1.0
    ensures Sum(fs) > 0.0
    ensures var gs := Normalized(fs); exists k :: 0 <= k < |gs| && r <= Through(gs, k)
  {
    NormalizedSumsToOne(fs);
    var gs := Normalized(fs);
    assert gs[..(|gs| - 1) + 1] == gs;
    assert r <= Through(gs, |gs| - 1);
  }

  /** A provider list built from positive frequencies, then one selection: provider i is chosen exactly on its share. */
  method Pick(fs: seq<real>, r: real) returns (i: nat)
    requires fs != [] && AllPositive(fs) && 0.0 <= r <= 1.0
    ensures i < |fs| && Sum(fs) > 0.0
    ensures forall k :: 0 <= k < |fs| ==> (InShare(Normalized(fs), r, k) <==> k == i)
  {
    NormalizedSumsToOne(fs);
    FallbackNeverNeeded(fs, r);
    var gs := NormalizeFrequencies(fs);
    var fellThrough;
    i, fellThrough := SelectProvider(gs, r);
    forall k | 0 <= k < |fs| ensures InShare(gs, r, k) <==> k == i {
      SelectionPartitions(gs, r, i, k);
    }
  }
}

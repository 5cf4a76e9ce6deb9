/** An earlier SIFIS implementation kept in the source tree (src/sifis.rs);
    it imports names the current src/utility.rs no longer has. It reads
    coveralls arrays only, with a loop that returns on the first malformed
    entry, and gives the score alone without its numerator. Each loop
    is proved to compute what the current `Sifis` functions compute. */
module LegacySifis {
  import opened Errors
  import opened Values
  import opened Utility
  import Sifis

  /** The loop's running sum after the first `i` entries is the weighted
      coverage of that prefix. */
  lemma PrefixStep(covs: seq<Value>, root: FuncSpace, metric: Complexity, quantized: bool, i: nat)
    requires i < |covs|
    ensures Sifis.WeightedCoverage(covs[..i + 1], root, metric, quantized, 0, |covs|)
         == Sifis.WeightedCoverage(covs[..i], root, metric, quantized, 0, |covs|)
            + (if IsCovered(covs[i]) then Sifis.Weight(root, metric, quantized, i) else 0.0)
  {
    assert covs[..i + 1][..i] == covs[..i];
  }

  /** The current SIFIS plain score is the weighted coverage over the
      physical lines. */
  lemma PlainAgrees(root: FuncSpace, covs: seq<Value>, metric: Complexity)
    requires root.ploc != 0.0 && Sifis.Readable(covs, false, 0, |covs|)
    ensures Sifis.SifisPlain(root, covs, metric, false).value.0
         == Sifis.WeightedCoverage(covs, root, metric, false, 0, |covs|) / root.ploc
  {
    Sifis.PlainIsComplexityTimesCovered(covs, root, metric, 0, |covs|);
  }

  /** `sifis_plain`: every covered line adds the root's subtree complexity;
      the sum is divided by the root's physical lines. */
  method SifisPlain(root: FuncSpace, covs: seq<Value>, metric: Complexity) returns (r: Result<real>)
    requires root.ploc != 0.0
    ensures r.Ok? <==> WellFormedIn(covs, 0, |covs|)
    ensures r.Err? ==> r.error == ConversionError
    ensures r.Ok? ==> r.value == Sifis.WeightedCoverage(covs, root, metric, false, 0, |covs|) / root.ploc
    ensures r.Ok? ==> r.value == Sifis.SifisPlain(root, covs, metric, false).value.0
  {
    var comp := SumComplexity(root, metric);
    var sum := 0.0;
    for i := 0 to |covs|
      invariant WellFormedIn(covs[..i], 0, |covs|)
      invariant sum == Sifis.WeightedCoverage(covs[..i], root, metric, false, 0, |covs|)
    {
      PrefixStep(covs, root, metric, false, i);
      if !covs[i].Null? {
        var cov := AsU64(covs[i]);
        if cov.None? {
          return Err(ConversionError);
        }
        if cov.value > 0 {
          sum := sum + comp;
        }
      }
    }
    assert covs[..|covs|] == covs;
    assert Sifis.Readable(covs, false, 0, |covs|);
    PlainAgrees(root, covs, metric);
    r := Ok(sum / root.ploc);
  }

  /** `sifis_quantized`: every covered line adds 2 when the innermost scope
      around it is more complex than 15, and 1 otherwise. */
  method SifisQuantized(root: FuncSpace, covs: seq<Value>, metric: Complexity) returns (r: Result<real>)
    requires root.ploc != 0.0
    ensures r.Ok? <==> WellFormedIn(covs, 0, |covs|)
    ensures r.Err? ==> r.error == ConversionError
    ensures r.Ok? ==> r.value == Sifis.WeightedCoverage(covs, root, metric, true, 0, |covs|) / root.ploc
    ensures r.Ok? ==> r.value == Sifis.SifisQuantized(root, covs, metric, false).value.0
  {
    var sum := 0.0;
    var threshold := 15.0;
    for i := 0 to |covs|
      invariant WellFormedIn(covs[..i], 0, |covs|)
      invariant sum == Sifis.WeightedCoverage(covs[..i], root, metric, true, 0, |covs|)
    {
      PrefixStep(covs, root, metric, true, i);
      if !covs[i].Null? {
        var cov := AsU64(covs[i]);
        if cov.None? {
          return Err(ConversionError);
        }
        if cov.value > 0 {
          var minSpace := Sifis.GetMinSpace(root, i);
          var comp := OwnComplexity(minSpace, metric);
          if comp > threshold {
            sum := sum + 2.0;
          } else {
            sum := sum + 1.0;
          }
        }
      }
    }
    assert covs[..|covs|] == covs;
    assert Sifis.Readable(covs, false, 0, |covs|);
    r := Ok(sum / root.ploc);
  }
}

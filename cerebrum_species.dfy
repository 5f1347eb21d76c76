// Model of Javascript/Cerebrum/src/Species.js: a group of genomes close enough
// to breed, culled to its fittest members and scored by average fitness.

module CerebrumSpecies {
  import opened CerebrumNetwork
  import opened CerebrumGenome
  import opened CerebrumHelper

  /** The sum of the genomes' fitness values (`reduce` from 0). */
  function TotalFitness(genomes: seq<Genome>): real
  {
    if genomes == [] then 0.0 else TotalFitness(genomes[..|genomes| - 1]) + genomes[|genomes| - 1].fitness
  }

  /** `Math.ceil(n / 2)`, the default number of genomes `cull` keeps. */
  function CeilHalf(n: nat): (k: nat)
    ensures 2 * k == n || 2 * k == n + 1
  {
    (n + 1) / 2
  }

  function Min(a: nat, b: nat): nat
  {
    if a <= b then a else b
  }

  /** The number of genomes `cull(remaining)` keeps out of `n`: `slice(0, k)`
      keeps `min(k, n)`, and an omitted `remaining` means `ceil(n / 2)`. */
  function KeptCount(remaining: Option<nat>, n: nat): (k: nat)
    ensures k <= n
    ensures remaining.Some? ==> k == Min(remaining.value, n)
    ensures remaining.None? && n > 0 ==> 0 < k
  {
    Min(if remaining.Some? then remaining.value else CeilHalf(n), n)
  }

  /** The average fitness of a list of genomes; `None` is the NaN of an
      empty list. */
  function AverageOf(genomes: seq<Genome>): (r: Option<real>)
    ensures r.None? <==> |genomes| == 0
  {
    if |genomes| == 0 then None else Some(TotalFitness(genomes) / (|genomes| as real))
  }

  class Species {
    var genomes: seq<Genome>
    /** `None` stands for NaN, the average of an empty species. */
    var averageFitness: Option<real>

    /** `new Species()`: no genomes, average fitness 0. */
    constructor ()
      ensures genomes == [] && averageFitness == Some(0.0)
    {
      genomes := [];
      averageFitness := Some(0.0);
    }

    /** `cull(remaining)`: sort by descending fitness, then keep the first
        `remaining` genomes. */
    method Cull(remaining: Option<nat>)
      modifies this`genomes
      ensures genomes == SortDescending(old(genomes))[..KeptCount(remaining, |old(genomes)|)]
      ensures |genomes| == KeptCount(remaining, |old(genomes)|)
      ensures SortedDescending(genomes)
    {
      var sorted := SortDescending(genomes);
      SortDescendingCorrect(genomes);
      genomes := sorted[..KeptCount(remaining, |genomes|)];
    }

    /** `calculateAverageFitness()`: total fitness over the number of genomes. */
    method CalculateAverageFitness()
      modifies this`averageFitness
      ensures averageFitness == AverageOf(genomes)
    {
      var total := TotalFitness(genomes);
      if |genomes| == 0 {
        averageFitness := None;
      } else {
        averageFitness := Some(total / (|genomes| as real));
      }
    }
  }

  /** Culling keeps the fittest genomes: the kept and the dropped genomes
      together are the original ones, and no dropped genome is fitter than a
      kept one. */
  lemma CullKeepsFittest(genomes: seq<Genome>, k: nat)
    requires k <= |genomes|
    ensures var r := SortDescending(genomes);
            && multiset(r[..k]) + multiset(r[k..]) == multiset(genomes)
            && forall i, j :: 0 <= i < k <= j < |genomes| ==> r[i].fitness >= r[j].fitness
  {
    var r := SortDescending(genomes);
    SortDescendingPermutes(genomes);
    MultisetSplit(r, k);
    SortDescendingSorted(genomes);
    SortedSplit(r, k);
  }

  lemma MultisetSplit<T>(r: seq<T>, k: nat)
    requires k <= |r|
    ensures multiset(r[..k]) + multiset(r[k..]) == multiset(r)
  {
    assert r[..k] + r[k..] == r;
  }

  lemma SortedSplit(r: seq<Genome>, k: nat)
    requires k <= |r| && SortedDescending(r)
    ensures forall i, j :: 0 <= i < k <= j < |r| ==> r[i].fitness >= r[j].fitness
  {
  }

  /** Fitness values between `lo` and `hi` total between `n * lo` and `n * hi`. */
  lemma {:induction false} TotalFitnessBounds(genomes: seq<Genome>, lo: real, hi: real)
    requires forall i :: 0 <= i < |genomes| ==> lo <= genomes[i].fitness <= hi
    ensures (|genomes| as real) * lo <= TotalFitness(genomes) <= (|genomes| as real) * hi
  {
    if genomes != [] {
      var p := genomes[..|genomes| - 1];
      assert forall i :: 0 <= i < |p| ==> p[i] == genomes[i];
      TotalFitnessBounds(p, lo, hi);
    }
  }

  /** The average of a non-empty species lies between its least and greatest
      fitness. */
  lemma AverageBetween(genomes: seq<Genome>, lo: real, hi: real)
    requires |genomes| > 0
    requires forall i :: 0 <= i < |genomes| ==> lo <= genomes[i].fitness <= hi
    ensures lo <= TotalFitness(genomes) / (|genomes| as real) <= hi
  {
    TotalFitnessBounds(genomes, lo, hi);
    QuotientBetween(TotalFitness(genomes), |genomes| as real, lo, hi);
  }

  lemma QuotientBetween(t: real, n: real, lo: real, hi: real)
    requires n > 0.0 && n * lo <= t <= n * hi
    ensures lo <= t / n <= hi
  {
    assert (t / n) * n == t;
  }
}

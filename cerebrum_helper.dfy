// Model of Javascript/Cerebrum/src/Helper.js: the random integer helpers (with
// the `Math.random()` draw passed in as `r`), the fitness comparators, and the
// stable `Array.prototype.sort` the engine runs with them.

module CerebrumHelper {
  import opened CerebrumGenome

  /** `randomNumBetween(min, max)` for the draw `r`. */
  function RandomNumBetween(min: int, max: int, r: real): (n: int)
    requires 0.0 <= r < 1.0
    ensures min <= max ==> min <= n <= max
  {
    (r * ((max - min + 1) as real) + (min as real)).Floor
  }

  /** Every integer of `[min, max]` is hit by exactly the draws of its slice of
      width `1 / (max - min + 1)`. */
  lemma {:induction false} RandomNumBetweenSlice(min: int, max: int, r: real, n: int)
    requires 0.0 <= r < 1.0 && min <= max
    ensures RandomNumBetween(min, max, r) == n
            <==> ((n - min) as real) <= r * ((max - min + 1) as real) < ((n - min + 1) as real)
  {
  }

  /** `randomWeightedNumBetween(min, max)`: the draw is squared first. */
  function RandomWeightedNumBetween(min: int, max: int, r: real): (n: int)
    requires 0.0 <= r < 1.0
    ensures min <= max ==> min <= n <= max
  {
    var sq := r * r;
    assert sq <= r by {
      assert r * r <= r * 1.0;
    }
    RandomNumBetween(min, max, sq)
  }

  /** Squaring the draw never moves the pick up, so the weighted pick favours
      the front of a list (the fittest genomes, once sorted). */
  lemma {:induction false} WeightedNotAboveUniform(min: int, max: int, r: real)
    requires 0.0 <= r < 1.0 && min <= max
    ensures RandomWeightedNumBetween(min, max, r) <= RandomNumBetween(min, max, r)
  {
    var k := (max - min + 1) as real;
    var sq := r * r;
    assert sq <= r by {
      assert r * r <= r * 1.0;
    }
    assert sq * k <= r * k by {
      assert (r - sq) * k >= 0.0;
    }
    FloorMonotone(sq * k + (min as real), r * k + (min as real));
  }

  lemma FloorMonotone(x: real, y: real)
    requires x <= y
    ensures x.Floor <= y.Floor
  {
  }

  /** `compareGenomesAscending`. */
  function CompareAscending(a: Genome, b: Genome): (c: real)
    ensures c < 0.0 <==> a.fitness < b.fitness
  {
    a.fitness - b.fitness
  }

  /** `compareGenomesDescending`: negative exactly when `a` is fitter. */
  function CompareDescending(a: Genome, b: Genome): (c: real)
    ensures c < 0.0 <==> a.fitness > b.fitness
    ensures c == 0.0 <==> a.fitness == b.fitness
  {
    b.fitness - a.fitness
  }

  lemma AscendingIsNegatedDescending(a: Genome, b: Genome)
    ensures CompareAscending(a, b) == -CompareDescending(a, b)
    ensures CompareDescending(a, b) == -CompareDescending(b, a)
  {
  }

  // ---------------------------------------------------------------------
  // `genomes.sort(compareGenomesDescending)`. JavaScript's sort is stable, so
  // the result is the one a stable insertion sort with the same comparator
  // gives: an element goes in front of the first element it does not compare
  // greater than.

  predicate SortedDescending(s: seq<Genome>)
  {
    forall i, j :: 0 <= i < j < |s| ==> s[i].fitness >= s[j].fitness
  }

  function Insert(g: Genome, s: seq<Genome>): (r: seq<Genome>)
    ensures multiset(r) == multiset(s) + multiset{g}
    ensures |r| == |s| + 1
  {
    if s == [] || CompareDescending(g, s[0]) <= 0.0 then [g] + s
    else
      assert s == [s[0]] + s[1..];
      [s[0]] + Insert(g, s[1..])
  }

  function SortDescending(s: seq<Genome>): (r: seq<Genome>)
    ensures |r| == |s|
  {
    if s == [] then [] else Insert(s[0], SortDescending(s[1..]))
  }

  lemma {:induction false} InsertSorted(g: Genome, s: seq<Genome>)
    requires SortedDescending(s)
    ensures SortedDescending(Insert(g, s))
  {
    if s == [] || CompareDescending(g, s[0]) <= 0.0 {
    } else {
      InsertSorted(g, s[1..]);
      var t := Insert(g, s[1..]);
      assert multiset(t) == multiset(s[1..]) + multiset{g};
      forall j | 0 <= j < |t|
        ensures s[0].fitness >= t[j].fitness
      {
        assert t[j] in multiset(t);
        if t[j] != g {
          assert t[j] in multiset(s[1..]);
          var k :| 0 <= k < |s[1..]| && s[1..][k] == t[j];
          assert s[k + 1] == t[j];
        }
      }
    }
  }

  /** The sort puts the fittest first and keeps exactly the same genomes. */
  lemma {:induction false} SortDescendingCorrect(s: seq<Genome>)
    ensures SortedDescending(SortDescending(s))
    ensures multiset(SortDescending(s)) == multiset(s)
  {
    SortDescendingSorted(s);
    SortDescendingPermutes(s);
  }

  lemma {:induction false} SortDescendingSorted(s: seq<Genome>)
    ensures SortedDescending(SortDescending(s))
  {
    if s != [] {
      SortDescendingSorted(s[1..]);
      InsertSorted(s[0], SortDescending(s[1..]));
    }
  }

  lemma {:induction false} SortDescendingPermutes(s: seq<Genome>)
    ensures multiset(SortDescending(s)) == multiset(s)
  {
    if s != [] {
      SortDescendingPermutes(s[1..]);
      assert s == [s[0]] + s[1..];
    }
  }

  /** After sorting, the front genome is at least as fit as every genome. */
  lemma {:induction false} SortedFrontIsFittest(s: seq<Genome>, g: Genome)
    requires g in s
    ensures SortDescending(s)[0].fitness >= g.fitness
  {
    SortDescendingCorrect(s);
    var r := SortDescending(s);
    assert g in multiset(r);
    var k :| 0 <= k < |r| && r[k] == g;
    if k > 0 {
      assert r[0].fitness >= r[k].fitness;
    }
  }
}

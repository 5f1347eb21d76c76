// Model of Javascript/NeatJS/src/neat.js: the `Neat` driver that keeps a
// population of networks, evaluates, sorts, selects parents, breeds and
// mutates them. A genome is seen through its fields (`NetworkFields`), whose
// `score` is the property `evaluate` writes and `evolve` clears. What the
// driver delegates to other modules is a parameter: the fitness function,
// `new Network(input, output)`, the JSON copy `fromJSON(toJSON(...))`,
// `getOffspring` (two `getParent` calls and `crossOver`), `Network.mutate`
// and `Network.fromJSON`. Each `Math.random()` call site reads its own
// stream of draws in [0, 1).

module NeatDriver {
  import opened NeatConnection
  import opened NeatNode
  import opened NeatMutation
  import opened NeatSerial
  import opened NeatNetwork

  /** A member of the population. */
  type Genome = NetworkFields

  /** The three selection methods `getParent` knows, and any other
      selection object (`UNKNOWN`). */
  datatype Selection =
    | POWER(power: real)
    | FITNESS_PROPORTIONATE
    | TOURNAMENT(size: nat, probability: real)
    | UNKNOWN

  /** The options object of the constructor; `None` is an absent option. */
  datatype Options = Options(
    popsize: Option<nat>, elitism: Option<nat>, provenance: Option<nat>,
    mutationRate: Option<real>, mutationAmount: Option<nat>,
    selection: Option<Selection>, mutation: Option<seq<Mutation>>,
    network: Option<Genome>,
    maxNodes: Option<nat>, maxConns: Option<nat>, maxGates: Option<nat>)

  /** `option || d` on a count: an absent or zero option takes the default. */
  function OrCount(x: Option<nat>, d: nat): (r: nat)
    ensures r == d || (x.Some? && r == x.value)
    ensures r == 0 ==> d == 0
  {
    if x.None? || x.value == 0 then d else x.value
  }

  /** `option || d` on a rate. */
  function OrRate(x: Option<real>, d: real): (r: real)
    ensures r == d || (x.Some? && r == x.value)
    ensures r == 0.0 ==> d == 0.0
  {
    if x.None? || x.value == 0.0 then d else x.value
  }

  /** `option || Infinity`: `None` is the absent cap. */
  function OrInfinity(x: Option<nat>): (r: Option<nat>)
    ensures r.Some? ==> r == x && r.value > 0
    ensures x.Some? && x.value > 0 ==> r == x
  {
    if x.None? || x.value == 0 then None else x
  }

  /** `count >= cap`, with `None` as `Infinity`. */
  predicate AtCap(cap: Option<nat>, count: nat)
  {
    cap.Some? && count >= cap.value
  }

  // ---------------------------------------------------------------------
  // Scores and the sort

  /** The score of an evaluated genome. */
  function Score(g: Genome): real
  {
    if g.score.Some? then g.score.value else 0.0
  }

  predicate Scored(p: seq<Genome>)
  {
    forall i :: 0 <= i < |p| ==> p[i].score.Some?
  }

  /** Highest score first, as the comparator `b.score - a.score` orders. */
  predicate Descending(p: seq<Genome>)
  {
    forall i, j :: 0 <= i < j < |p| ==> Score(p[j]) <= Score(p[i])
  }

  /** `g` placed before the first genome that does not beat it. */
  function Insert(g: Genome, s: seq<Genome>): (r: seq<Genome>)
    requires g.score.Some? && Scored(s)
    ensures |r| == |s| + 1 && Scored(r)
  {
    if s == [] || Score(s[0]) <= Score(g) then [g] + s
    else [s[0]] + Insert(g, s[1..])
  }

  /** The population sorted by descending score (`Array.prototype.sort`
      with the comparator `(a, b) => b.score - a.score`). */
  function SortDesc(p: seq<Genome>): (r: seq<Genome>)
    requires Scored(p)
    ensures |r| == |p| && Scored(r)
  {
    if p == [] then [] else Insert(p[0], SortDesc(p[1..]))
  }

  lemma {:induction false} InsertPermutes(g: Genome, s: seq<Genome>)
    requires g.score.Some? && Scored(s)
    ensures multiset(Insert(g, s)) == multiset(s) + multiset{g}
    decreases |s|
  {
    if s == [] || Score(s[0]) <= Score(g) {
    } else {
      InsertPermutes(g, s[1..]);
      assert s == [s[0]] + s[1..];
    }
  }

  lemma {:induction false} InsertSorts(g: Genome, s: seq<Genome>)
    requires g.score.Some? && Scored(s) && Descending(s)
    ensures Descending(Insert(g, s))
    decreases |s|
  {
    if s == [] || Score(s[0]) <= Score(g) {
    } else {
      var t := Insert(g, s[1..]);
      InsertSorts(g, s[1..]);
      InsertPermutes(g, s[1..]);
      forall j | 0 <= j < |t|
        ensures Score(t[j]) <= Score(s[0])
      {
        assert t[j] in multiset(t);
        if t[j] != g {
          assert t[j] in multiset(s[1..]);
          var k :| 0 <= k < |s[1..]| && s[1..][k] == t[j];
          assert s[k + 1] == t[j];
        }
      }
      assert Insert(g, s) == [s[0]] + t;
    }
  }

  /** The sort orders the genomes by descending score... */
  lemma {:induction false} SortDescSorted(p: seq<Genome>)
    requires Scored(p)
    ensures Descending(SortDesc(p))
    decreases |p|
  {
    if p != [] {
      SortDescSorted(p[1..]);
      InsertSorts(p[0], SortDesc(p[1..]));
    }
  }

  /** ...and keeps every one of them. */
  lemma {:induction false} SortDescPermutes(p: seq<Genome>)
    requires Scored(p)
    ensures multiset(SortDesc(p)) == multiset(p)
    decreases |p|
  {
    if p != [] {
      SortDescPermutes(p[1..]);
      InsertPermutes(p[0], SortDesc(p[1..]));
      assert p == [p[0]] + p[1..];
    }
  }

  /** Every genome scored by `fitness` (`genome.score = await fitness(genome)`). */
  function Evaluated(p: seq<Genome>, fitness: Genome -> real): (r: seq<Genome>)
    ensures |r| == |p| && Scored(r)
    ensures forall i :: 0 <= i < |p| ==> r[i].(score := p[i].score) == p[i]
  {
    seq(|p|, i requires 0 <= i < |p| => p[i].(score := Some(fitness(p[i]))))
  }

  /** Every score cleared (`score = undefined`). */
  function Unscored(p: seq<Genome>): (r: seq<Genome>)
    ensures |r| == |p|
    ensures forall i :: 0 <= i < |p| ==> r[i].score.None? && r[i].(score := p[i].score) == p[i]
  {
    seq(|p|, i requires 0 <= i < |p| => p[i].(score := None))
  }

  /** A population `evolve` can rank: either its last genome is unscored,
      so `evaluate` runs first, or every genome carries a score. */
  predicate Rankable(p: seq<Genome>)
  {
    |p| > 0 && (p[|p| - 1].score.Some? ==> Scored(p))
  }

  /** The population `evolve` ranks: evaluated when the last genome has no
      score, then sorted. */
  function Ranked(p: seq<Genome>, fitness: Genome -> real): (r: seq<Genome>)
    requires Rankable(p)
    ensures |r| == |p| && Scored(r)
  {
    SortDesc(if p[|p| - 1].score.None? then Evaluated(p, fitness) else p)
  }

  lemma RankedSorts(p: seq<Genome>, fitness: Genome -> real)
    requires Rankable(p)
    ensures Descending(Ranked(p, fitness))
    ensures p[|p| - 1].score.Some? ==> multiset(Ranked(p, fitness)) == multiset(p)
  {
    SortDescSorted(if p[|p| - 1].score.None? then Evaluated(p, fitness) else p);
    SortDescPermutes(if p[|p| - 1].score.None? then Evaluated(p, fitness) else p);
  }

  // ---------------------------------------------------------------------
  // FITNESS_PROPORTIONATE

  /** `minimalFitness` after the first loop: the lowest score, or 0 when
      every score is positive. */
  function Lowest(p: seq<Genome>): (m: real)
    ensures m <= 0.0
    decreases |p|
  {
    if p == [] then 0.0
    else
      var m := Lowest(p[..|p| - 1]);
      var s := Score(p[|p| - 1]);
      if s < m then s else m
  }

  lemma {:induction false} LowestBelow(p: seq<Genome>)
    ensures forall i :: 0 <= i < |p| ==> Lowest(p) <= Score(p[i])
    decreases |p|
  {
    if p != [] {
      LowestBelow(p[..|p| - 1]);
      forall i | 0 <= i < |p| - 1
        ensures Lowest(p) <= Score(p[i])
      {
        assert p[..|p| - 1][i] == p[i];
      }
    }
  }

  /** `totalFitness` after the first loop: the sum of the scores. */
  function Sum(p: seq<Genome>): real
    decreases |p|
  {
    if p == [] then 0.0 else Sum(p[..|p| - 1]) + Score(p[|p| - 1])
  }

  /** `Math.abs(x)`. */
  function Abs(x: real): real
  {
    if x < 0.0 then -x else x
  }

  /** `value` after `i` rounds of the second loop: the shifted scores of the
      first `i` genomes added up. */
  function Prefix(p: seq<Genome>, shift: real, i: nat): real
    requires i <= |p|
  {
    if i == 0 then 0.0 else Prefix(p, shift, i - 1) + (Score(p[i - 1]) + shift)
  }

  /** The first round `k >= i` whose running sum passes `random`. */
  function FirstAbove(p: seq<Genome>, shift: real, random: real, i: nat): (r: Option<nat>)
    requires i <= |p|
    ensures r.Some? ==> i <= r.value < |p| && random < Prefix(p, shift, r.value + 1)
    decreases |p| - i
  {
    if i == |p| then None
    else if random < Prefix(p, shift, i + 1) then Some(i)
    else FirstAbove(p, shift, random, i + 1)
  }

  /** The total `totalFitness` reaches: the sum plus the shift per genome. */
  function Total(p: seq<Genome>): real
  {
    Sum(p) + Times(Abs(Lowest(p)), |p| as real)
  }

  /** The position FITNESS_PROPORTIONATE picks for draws `r` (the roulette
      spin) and `r2` (the uniform fallback). */
  function RouletteIndex(p: seq<Genome>, r: real, r2: real): (k: nat)
    requires |p| > 0 && 0.0 <= r < 1.0 && 0.0 <= r2 < 1.0
    ensures k < |p|
  {
    var found := FirstAbove(p, Abs(Lowest(p)), Times(r, Total(p)), 0);
    if found.Some? then found.value else Pick(r2, |p|)
  }

  /** Shifting by `|min(0, lowest)|` makes every weight non-negative. */
  lemma ShiftedWeights(p: seq<Genome>)
    ensures forall i :: 0 <= i < |p| ==> 0.0 <= Score(p[i]) + Abs(Lowest(p))
  {
    LowestBelow(p);
  }

  lemma {:induction false} PrefixGrows(p: seq<Genome>, i: nat, j: nat)
    requires i <= j <= |p|
    ensures 0.0 <= Prefix(p, Abs(Lowest(p)), i) <= Prefix(p, Abs(Lowest(p)), j)
    decreases j
  {
    ShiftedWeights(p);
    if i < j {
      PrefixGrows(p, i, j - 1);
    } else if 0 < i {
      PrefixGrows(p, i - 1, i - 1);
    }
  }

  lemma {:induction false} PrefixIsTotal(p: seq<Genome>, shift: real, i: nat)
    requires i <= |p|
    ensures Prefix(p, shift, i) == Sum(p[..i]) + Times(shift, i as real)
    decreases i
  {
    if i > 0 {
      PrefixIsTotal(p, shift, i - 1);
      assert p[..i][..i - 1] == p[..i - 1];
      assert Times(shift, (i - 1) as real) + shift == Times(shift, i as real);
    }
  }

  /** The running sum over every genome is `totalFitness`. */
  lemma PrefixReachesTotal(p: seq<Genome>)
    ensures Prefix(p, Abs(Lowest(p)), |p|) == Total(p)
  {
    PrefixIsTotal(p, Abs(Lowest(p)), |p|);
    assert p[..|p|] == p;
  }

  lemma {:induction false} FirstAboveFinds(p: seq<Genome>, shift: real, random: real, i: nat, k: nat)
    requires i <= k < |p| && random < Prefix(p, shift, k + 1)
    ensures FirstAbove(p, shift, random, i).Some?
    decreases k - i
  {
    if random >= Prefix(p, shift, i + 1) {
      FirstAboveFinds(p, shift, random, i + 1, k);
    }
  }

  lemma {:induction false} FirstAboveSkips(p: seq<Genome>, shift: real, random: real, i: nat)
    requires i <= |p| && FirstAbove(p, shift, random, i).Some?
    ensures forall k :: i < k <= FirstAbove(p, shift, random, i).value ==> Prefix(p, shift, k) <= random
    decreases |p| - i
  {
    if random >= Prefix(p, shift, i + 1) {
      FirstAboveSkips(p, shift, random, i + 1);
    }
  }

  /** A product of reals, kept behind a name so that the arithmetic around
      it stays linear. */
  function Times(a: real, b: real): real
  {
    a * b
  }

  lemma BelowWhole(r: real, t: real)
    requires 0.0 <= r < 1.0 && 0.0 < t
    ensures 0.0 <= Times(r, t) < t
  {
    assert t - r * t == (1.0 - r) * t;
  }

  /** With a positive total the spin always lands on a genome. */
  lemma SpinFinds(p: seq<Genome>, r: real)
    requires |p| > 0 && 0.0 <= r < 1.0 && Total(p) > 0.0
    ensures FirstAbove(p, Abs(Lowest(p)), Times(r, Total(p)), 0).Some?
  {
    PrefixReachesTotal(p);
    BelowWhole(r, Total(p));
    FirstAboveFinds(p, Abs(Lowest(p)), Times(r, Total(p)), 0, |p| - 1);
  }

  /** The roulette falls back to a uniform pick only when every shifted
      weight is zero: every genome scores the lowest score, and that score
      is not positive. */
  lemma FallbackOnlyWhenFlat(p: seq<Genome>, r: real)
    requires |p| > 0 && 0.0 <= r < 1.0
    requires FirstAbove(p, Abs(Lowest(p)), Times(r, Total(p)), 0).None?
    ensures Total(p) == 0.0
    ensures forall i :: 0 <= i < |p| ==> Score(p[i]) == Lowest(p) <= 0.0
  {
    PrefixReachesTotal(p);
    PrefixGrows(p, 0, |p|);
    if Total(p) > 0.0 {
      SpinFinds(p, r);
    }
    ShiftedWeights(p);
    forall i | 0 <= i < |p|
      ensures Score(p[i]) == Lowest(p)
    {
      PrefixGrows(p, i, i + 1);
      PrefixGrows(p, i + 1, |p|);
    }
  }

  /** A genome the roulette lands on has a positive shifted weight. */
  lemma RoulettePicksWeighted(p: seq<Genome>, r: real)
    requires |p| > 0 && 0.0 <= r < 1.0
    requires FirstAbove(p, Abs(Lowest(p)), Times(r, Total(p)), 0).Some?
    ensures var k := FirstAbove(p, Abs(Lowest(p)), Times(r, Total(p)), 0).value;
      0.0 < Score(p[k]) + Abs(Lowest(p))
  {
    var shift := Abs(Lowest(p));
    var random := Times(r, Total(p));
    var k := FirstAbove(p, shift, random, 0).value;
    PrefixReachesTotal(p);
    PrefixGrows(p, 0, |p|);
    if 0.0 < Total(p) {
      BelowWhole(r, Total(p));
    }
    FirstAboveSkips(p, shift, random, 0);
    if k > 0 {
      assert Prefix(p, shift, k) <= random;
    }
  }

  /** The first loop of FITNESS_PROPORTIONATE: `minimalFitness` and
      `totalFitness`. */
  method Spread(p: seq<Genome>) returns (minimalFitness: real, totalFitness: real)
    ensures minimalFitness == Lowest(p) && totalFitness == Sum(p)
  {
    totalFitness := 0.0;
    minimalFitness := 0.0;
    var i := 0;
    while i < |p|
      invariant i <= |p|
      invariant minimalFitness == Lowest(p[..i]) && totalFitness == Sum(p[..i])
    {
      assert p[..i + 1][..i] == p[..i];
      var score := Score(p[i]);
      minimalFitness := if score < minimalFitness then score else minimalFitness;
      totalFitness := totalFitness + score;
      i := i + 1;
    }
    assert p[..|p|] == p;
  }

  /** The second loop of FITNESS_PROPORTIONATE: the first genome whose
      running sum of shifted scores passes `random`. */
  method Spin(p: seq<Genome>, shift: real, random: real) returns (found: Option<nat>)
    ensures found == FirstAbove(p, shift, random, 0)
  {
    var value := 0.0;
    var i := 0;
    while i < |p|
      invariant i <= |p| && value == Prefix(p, shift, i)
      invariant FirstAbove(p, shift, random, 0) == FirstAbove(p, shift, random, i)
    {
      value := value + (Score(p[i]) + shift);
      if random < value {
        return Some(i);
      }
      i := i + 1;
    }
    found := None;
  }

  /** FITNESS_PROPORTIONATE: the two accumulator loops and the fallback. */
  method Roulette(p: seq<Genome>, r: real, r2: real) returns (k: nat)
    requires |p| > 0 && 0.0 <= r < 1.0 && 0.0 <= r2 < 1.0
    ensures k == RouletteIndex(p, r, r2)
  {
    var minimalFitness, totalFitness := Spread(p);
    minimalFitness := Abs(minimalFitness);
    totalFitness := totalFitness + Times(minimalFitness, |p| as real);
    assert totalFitness == Total(p);
    var found := Spin(p, minimalFitness, Times(r, totalFitness));
    assert found == FirstAbove(p, Abs(Lowest(p)), Times(r, Total(p)), 0);
    if found.Some? {
      return found.value;
    }
    k := Pick(r2, |p|);
  }

  // ---------------------------------------------------------------------
  // TOURNAMENT

  /** The `size` individuals drawn into a tournament, `d(i)` drawing the `i`th. */
  function Entrants(p: seq<Genome>, d: nat -> real, size: nat): (r: seq<Genome>)
    requires |p| > 0 && Uniform(d)
    ensures |r| == size
    ensures forall i :: 0 <= i < size ==> r[i] in p
  {
    seq(size, i requires 0 <= i < size => p[Pick(d(i), |p|)])
  }

  /** The round that returns: the first with `q(i) < probability`, or the last. */
  function Winner(q: nat -> real, probability: real, size: nat, i: nat): (r: Option<nat>)
    requires i <= size
    ensures r.Some? ==> i <= r.value < size
    ensures i < size ==> r.Some?
    decreases size - i
  {
    if i == size then None
    else if q(i) < probability || i == size - 1 then Some(i)
    else Winner(q, probability, size, i + 1)
  }

  /** The genome a tournament returns; `None` is the `undefined` of a
      tournament of size 0. */
  function TournamentPick(p: seq<Genome>, size: nat, probability: real, d: nat -> real, q: nat -> real): (r: Option<Genome>)
    requires |p| > 0 && Scored(p) && Uniform(d)
  {
    var entrants := Entrants(p, d, size);
    assert Scored(entrants) by {
      forall i | 0 <= i < size
        ensures entrants[i].score.Some?
      {
        var k :| 0 <= k < |p| && p[k] == entrants[i];
      }
    }
    var w := Winner(q, probability, size, 0);
    if w.Some? then Some(SortDesc(entrants)[w.value]) else None
  }

  /** A tournament of at least one individual returns one of the population. */
  lemma TournamentReturns(p: seq<Genome>, size: nat, probability: real, d: nat -> real, q: nat -> real)
    requires |p| > 0 && Scored(p) && Uniform(d)
    ensures TournamentPick(p, size, probability, d, q).None? <==> size == 0
    ensures TournamentPick(p, size, probability, d, q).Some? ==> TournamentPick(p, size, probability, d, q).value in p
  {
    var entrants := Entrants(p, d, size);
    if size > 0 {
      var w := Winner(q, probability, size, 0).value;
      var s := SortDesc(entrants);
      SortDescPermutes(entrants);
      assert s[w] in multiset(entrants);
      assert s[w] in entrants;
    }
  }

  /** The two loops of TOURNAMENT, around the sort of the individuals. */
  method Tournament(p: seq<Genome>, size: nat, probability: real, d: nat -> real, q: nat -> real)
    returns (r: Option<Genome>)
    requires |p| > 0 && Scored(p) && Uniform(d)
    ensures r == TournamentPick(p, size, probability, d, q)
  {
    var individuals := [];
    var i := 0;
    while i < size
      invariant i <= size && individuals == Entrants(p, d, size)[..i]
    {
      individuals := individuals + [p[Pick(d(i), |p|)]];
      i := i + 1;
    }
    assert individuals == Entrants(p, d, size);
    ghost var t := TournamentPick(p, size, probability, d, q);
    individuals := SortDesc(individuals);
    i := 0;
    while i < size
      invariant i <= size
      invariant Winner(q, probability, size, 0) == Winner(q, probability, size, i)
    {
      if q(i) < probability || i == size - 1 {
        return Some(individuals[i]);
      }
      i := i + 1;
    }
    r := None;
  }

  // ---------------------------------------------------------------------
  // The driver

  /** The elitism loop of `evolve`: the first `n` genomes. */
  method Take(p: seq<Genome>, n: nat) returns (elitists: seq<Genome>)
    requires n <= |p|
    ensures elitists == p[..n]
  {
    elitists := [];
    var i := 0;
    while i < n
      invariant i <= n && elitists == p[..i]
    {
      elitists := elitists + [p[i]];
      i := i + 1;
    }
  }

  /** Per-genome, per-round draws of `selectMutationMethod`. */
  ghost predicate Uniform2(pick: (nat, nat) -> real)
  {
    forall i, j :: 0.0 <= pick(i, j) < 1.0
  }

  class Neat {
    const input: nat
    const output: nat
    const elitism: nat
    const provenance: nat
    const mutationRate: real
    const mutationAmount: nat
    const selection: Selection
    const mutation: seq<Mutation>
    const template: Option<Genome>
    const maxNodes: Option<nat>
    const maxConns: Option<nat>
    const maxGates: Option<nat>
    var popsize: nat
    var generation: nat
    var population: seq<Genome>

    /** `new Neat(input, output, fitness, options)`. The default mutation
        list (`FFW`) and the default POWER exponent are parameters. */
    constructor (input: nat, output: nat, options: Options, ffw: seq<Mutation>, power: real,
                 made: nat -> Genome, clone: Genome -> Genome)
      ensures this.input == input && this.output == output
      ensures popsize == OrCount(options.popsize, 50)
      ensures elitism == OrCount(options.elitism, 0) && provenance == OrCount(options.provenance, 0)
      ensures mutationRate == OrRate(options.mutationRate, 0.3)
      ensures mutationAmount == OrCount(options.mutationAmount, 1)
      ensures selection == (if options.selection.Some? then options.selection.value else POWER(power))
      ensures mutation == (if options.mutation.Some? then options.mutation.value else ffw)
      ensures template == options.network
      ensures maxNodes == OrInfinity(options.maxNodes) && maxConns == OrInfinity(options.maxConns)
      ensures maxGates == OrInfinity(options.maxGates)
      ensures generation == 0
      ensures population == Pool(popsize, template, made, clone)
    {
      this.input := input;
      this.output := output;
      popsize := OrCount(options.popsize, 50);
      elitism := OrCount(options.elitism, 0);
      provenance := OrCount(options.provenance, 0);
      mutationRate := OrRate(options.mutationRate, 0.3);
      mutationAmount := OrCount(options.mutationAmount, 1);
      selection := if options.selection.Some? then options.selection.value else POWER(power);
      mutation := if options.mutation.Some? then options.mutation.value else ffw;
      template := options.network;
      maxNodes := OrInfinity(options.maxNodes);
      maxConns := OrInfinity(options.maxConns);
      maxGates := OrInfinity(options.maxGates);
      generation := 0;
      population := [];
      new;
      CreatePool(template, made, clone);
    }

    /** The pool `createPool(network)` makes: `n` unscored genomes, copies of
        `network` when a template is set, fresh networks `made(i)` otherwise. */
    function Pool(n: nat, network: Option<Genome>, made: nat -> Genome, clone: Genome -> Genome): (r: seq<Genome>)
      requires template.Some? ==> network.Some?
      ensures |r| == n
      ensures forall i :: 0 <= i < n ==> r[i].score.None?
      ensures template.Some? ==> forall i :: 0 <= i < n ==> r[i] == clone(network.value).(score := None)
      ensures template.None? ==> forall i :: 0 <= i < n ==> r[i] == made(i).(score := None)
    {
      seq(n, i requires 0 <= i < n =>
        (if template.Some? then clone(network.value) else made(i)).(score := None))
    }

    method CreatePool(network: Option<Genome>, made: nat -> Genome, clone: Genome -> Genome)
      requires template.Some? ==> network.Some?
      modifies this
      ensures population == Pool(popsize, network, made, clone)
      ensures popsize == old(popsize) && generation == old(generation)
    {
      var pool := [];
      var i := 0;
      while i < popsize
        invariant i <= popsize && pool == Pool(popsize, network, made, clone)[..i]
      {
        var copy;
        if template.Some? {
          copy := clone(network.value);
        } else {
          copy := made(i);
        }
        copy := copy.(score := None);
        pool := pool + [copy];
        i := i + 1;
      }
      population := pool;
    }

    /** The mutation `selectMutationMethod` draws with `r`, or `None` (the
        source's `null`) when the list is empty or the drawn mutation would
        grow a count that is already at its cap. */
    function SelectMutationMethod(g: Genome, r: real): (m: Option<Mutation>)
      requires 0.0 <= r < 1.0
      ensures m.Some? ==> m.value in mutation
      ensures m == Some(ADD_NODE) ==> !AtCap(maxNodes, |g.nodes|)
      ensures m == Some(ADD_CONN) ==> !AtCap(maxConns, |g.connections|)
      ensures m == Some(ADD_GATE) ==> !AtCap(maxGates, |g.gates|)
      ensures m.None? && mutation != [] ==>
        var drawn := mutation[Pick(r, |mutation|)];
        (drawn == ADD_NODE && AtCap(maxNodes, |g.nodes|)) ||
        (drawn == ADD_CONN && AtCap(maxConns, |g.connections|)) ||
        (drawn == ADD_GATE && AtCap(maxGates, |g.gates|))
      ensures m.Some? ==> m.value == mutation[Pick(r, |mutation|)]
    {
      if mutation == [] then None
      else
        var drawn := mutation[Pick(r, |mutation|)];
        if drawn == ADD_NODE && AtCap(maxNodes, |g.nodes|) then None
        else if drawn == ADD_CONN && AtCap(maxConns, |g.connections|) then None
        else if drawn == ADD_GATE && AtCap(maxGates, |g.gates|) then None
        else Some(drawn)
    }

    /** Genome `i` after `n` rounds of `mutate`'s inner loop, `apply`
        standing for `Network.mutate`; with no mutation methods every round
        draws `null` and the genome stays. */
    function Mutations(g: Genome, i: nat, n: nat, pick: (nat, nat) -> real,
                       apply: (Genome, Mutation) -> Genome): (r: Genome)
      requires Uniform2(pick)
      ensures mutation == [] ==> r == g
      decreases n
    {
      if n == 0 then g
      else
        var h := Mutations(g, i, n - 1, pick, apply);
        var m := SelectMutationMethod(h, pick(i, n - 1));
        if m.Some? then apply(h, m.value) else h
    }

    /** The population after `mutate`: genome `i` is mutated
        `mutationAmount` times when its draw `rate(i)` is at most
        `mutationRate`, and left as it is otherwise. */
    function MutatedAll(p: seq<Genome>, rate: nat -> real, pick: (nat, nat) -> real,
                        apply: (Genome, Mutation) -> Genome): (r: seq<Genome>)
      requires Uniform2(pick)
      ensures |r| == |p|
      ensures forall i :: 0 <= i < |p| && mutationRate < rate(i) ==> r[i] == p[i]
    {
      seq(|p|, i requires 0 <= i < |p| =>
        if rate(i) <= mutationRate then Mutations(p[i], i, mutationAmount, pick, apply) else p[i])
    }

    /** The inner loop of `mutate` for genome `i`. */
    method MutateGenome(g: Genome, i: nat, pick: (nat, nat) -> real,
                        apply: (Genome, Mutation) -> Genome) returns (h: Genome)
      requires Uniform2(pick)
      ensures h == Mutations(g, i, mutationAmount, pick, apply)
    {
      h := g;
      var j := 0;
      while j < mutationAmount
        invariant j <= mutationAmount && h == Mutations(g, i, j, pick, apply)
      {
        var m := SelectMutationMethod(h, pick(i, j));
        if m.Some? {
          h := apply(h, m.value);
        }
        j := j + 1;
      }
    }

    /** The outer loop of `mutate`. */
    method MutateEach(population: seq<Genome>, rate: nat -> real, pick: (nat, nat) -> real,
                      apply: (Genome, Mutation) -> Genome) returns (p: seq<Genome>)
      requires Uniform2(pick)
      ensures p == MutatedAll(population, rate, pick, apply)
    {
      ghost var mutated := MutatedAll(population, rate, pick, apply);
      p := population;
      var i := 0;
      while i < |p|
        invariant i <= |p| == |population|
        invariant forall k :: 0 <= k < i ==> p[k] == mutated[k]
        invariant forall k :: i <= k < |p| ==> p[k] == population[k]
      {
        if rate(i) <= mutationRate {
          var h := MutateGenome(p[i], i, pick, apply);
          p := p[i := h];
        }
        i := i + 1;
      }
      assert p == mutated;
    }

    method Mutate(rate: nat -> real, pick: (nat, nat) -> real, apply: (Genome, Mutation) -> Genome)
      requires Uniform2(pick)
      modifies this
      ensures population == MutatedAll(old(population), rate, pick, apply)
      ensures popsize == old(popsize) && generation == old(generation)
    {
      population := MutateEach(population, rate, pick, apply);
    }

    method Evaluate(fitness: Genome -> real)
      modifies this
      ensures population == Evaluated(old(population), fitness)
      ensures popsize == old(popsize) && generation == old(generation)
    {
      var p := population;
      var i := 0;
      while i < |p|
        invariant i <= |p| == |population|
        invariant p == Evaluated(population, fitness)[..i] + population[i..]
      {
        var genome := p[i];
        p := p[i := genome.(score := Some(fitness(genome)))];
        i := i + 1;
      }
      population := p;
    }

    method Sort()
      requires Scored(population)
      modifies this
      ensures population == SortDesc(old(population))
      ensures popsize == old(popsize) && generation == old(generation)
    {
      population := SortDesc(population);
    }

    /** The loop count of the breeding loop, `popsize - elitism - provenance`,
        where a negative count runs no round. */
    function Breeding(): nat
      reads this
    {
      if popsize - elitism - provenance > 0 then popsize - elitism - provenance else 0
    }

    /** `newPopulation` before `mutate`: `provenance` template copies, then
        `count` offspring, `child(i)` standing for the `i`th `getOffspring()`. */
    function Bred(count: nat, child: nat -> Genome, clone: Genome -> Genome): (r: seq<Genome>)
      requires provenance > 0 ==> template.Some?
      ensures |r| == provenance + count
      ensures forall i :: 0 <= i < provenance ==> r[i] == clone(template.value)
      ensures forall i :: 0 <= i < count ==> r[provenance + i] == child(i)
    {
      seq(provenance + count, i requires 0 <= i < provenance + count =>
        if i < provenance then clone(template.value) else child(i - provenance))
    }

    /** The population `evolve` leaves: the bred genomes mutated, then the
        elites, then every score cleared. */
    function NextGeneration(ranked: seq<Genome>, count: nat, child: nat -> Genome, clone: Genome -> Genome,
                            rate: nat -> real, pick: (nat, nat) -> real,
                            apply: (Genome, Mutation) -> Genome): (r: seq<Genome>)
      requires elitism <= |ranked| && (provenance > 0 ==> template.Some?) && Uniform2(pick)
      ensures |r| == provenance + count + elitism
      ensures forall i :: 0 <= i < |r| ==> r[i].score.None?
      ensures forall k :: 0 <= k < elitism ==> r[provenance + count + k] == ranked[k].(score := None)
      ensures forall i :: 0 <= i < provenance + count && mutationRate < rate(i) ==>
        r[i] == Bred(count, child, clone)[i].(score := None)
    {
      Unscored(MutatedAll(Bred(count, child, clone), rate, pick, apply) + ranked[..elitism])
    }

    /** `evolve` returns to a population of `popsize` genomes whenever the
        elites and the template copies fit in it. */
    lemma NextGenerationSize(ranked: seq<Genome>, child: nat -> Genome, clone: Genome -> Genome,
                             rate: nat -> real, pick: (nat, nat) -> real,
                             apply: (Genome, Mutation) -> Genome)
      requires elitism <= |ranked| && (provenance > 0 ==> template.Some?) && Uniform2(pick)
      requires elitism + provenance <= popsize
      ensures |NextGeneration(ranked, Breeding(), child, clone, rate, pick, apply)| == popsize
    {
    }

    /** The provenance and breeding loops of `evolve`: `provenance` template
        copies, then `count` offspring (none for a negative count). */
    method Breed(count: int, child: nat -> Genome, clone: Genome -> Genome) returns (newPopulation: seq<Genome>)
      requires provenance > 0 ==> template.Some?
      ensures newPopulation == Bred(if count > 0 then count else 0, child, clone)
    {
      ghost var n := if count > 0 then count else 0;
      ghost var bred := Bred(n, child, clone);
      newPopulation := [];
      var i := 0;
      while i < provenance
        invariant i <= provenance && newPopulation == bred[..i]
      {
        newPopulation := newPopulation + [clone(template.value)];
        i := i + 1;
      }
      i := 0;
      while i < count
        invariant i <= n && newPopulation == bred[..provenance + i]
      {
        newPopulation := newPopulation + [child(i)];
        i := i + 1;
      }
      assert newPopulation == bred;
    }

    method ResetScores()
      modifies this
      ensures population == Unscored(old(population))
      ensures popsize == old(popsize) && generation == old(generation)
    {
      var p := population;
      var i := 0;
      while i < |p|
        invariant i <= |p| == |population|
        invariant forall k :: 0 <= k < i ==> p[k] == population[k].(score := None)
        invariant forall k :: i <= k < |p| ==> p[k] == population[k]
      {
        p := p[i := p[i].(score := None)];
        i := i + 1;
      }
      ghost var unscored := Unscored(population);
      assert forall k :: 0 <= k < |p| ==> unscored[k] == population[k].(score := None);
      population := p;
    }

    /** One generation. Offspring, template copies, the mutation draws and
        the fitness function are parameters; the result is a copy of the best
        genome with its score. With template copies to make and no template,
        the provenance loop calls `toJSON` on `false` and throws; the
        population is then left ranked. */
    method Evolve(fitness: Genome -> real, child: nat -> Genome, clone: Genome -> Genome,
                  rate: nat -> real, pick: (nat, nat) -> real,
                  apply: (Genome, Mutation) -> Genome) returns (res: Outcome<Genome>)
      requires Rankable(population) && elitism <= |population|
      requires Uniform2(pick)
      modifies this
      ensures var ranked := Ranked(old(population), fitness);
        if provenance > 0 && template.None? then
          res.Throws? && population == ranked && generation == old(generation)
        else
          res == Done(clone(ranked[0]).(score := ranked[0].score)) &&
          population == NextGeneration(ranked, old(Breeding()), child, clone, rate, pick, apply) &&
          generation == old(generation) + 1
      ensures popsize == old(popsize)
    {
      ghost var ranked := Ranked(population, fitness);
      if population[|population| - 1].score.None? {
        Evaluate(fitness);
      }
      Sort();
      assert population == ranked;
      var fittest := clone(population[0]).(score := population[0].score);
      var newPopulation := [];

      var elitists := Take(population, elitism);
      if provenance > 0 && template.None? {
        return Throws;
      }
      newPopulation := Breed(popsize - elitism - provenance, child, clone);
      population := newPopulation;
      Mutate(rate, pick, apply);
      population := population + elitists;
      ResetScores();
      generation := generation + 1;
      res := Done(fittest);
    }

    /** `getParent()`. `power` is the POWER draw `Math.random() ** power`,
        `r` and `r2` the roulette's spin and fallback draws, `d` and `q` the
        tournament's entry and round draws. `Done(None)` is the `undefined`
        a tournament of size 0 returns. */
    method GetParent(power: real, r: real, r2: real, d: nat -> real, q: nat -> real)
      returns (res: Outcome<Option<Genome>>)
      requires Scored(population) && |population| > 0
      requires selection.POWER? ==> |population| >= 2
      requires 0.0 <= power < 1.0 && 0.0 <= r < 1.0 && 0.0 <= r2 < 1.0 && Uniform(d)
      modifies this
      ensures popsize == old(popsize) && generation == old(generation)
      ensures selection.POWER? ==>
        population == (if Score(old(population)[0]) < Score(old(population)[1])
                       then SortDesc(old(population)) else old(population)) &&
        res == Done(Some(population[Pick(power, |population|)]))
      ensures selection.FITNESS_PROPORTIONATE? ==>
        population == old(population) &&
        res == Done(Some(population[RouletteIndex(population, r, r2)]))
      ensures selection.TOURNAMENT? ==>
        population == old(population) &&
        (res.Throws? <==> selection.size > popsize) &&
        (res.Done? ==> res.value == TournamentPick(population, selection.size, selection.probability, d, q))
      ensures selection.UNKNOWN? ==> population == old(population) && res.Throws?
    {
      match selection {
        case POWER(_) => {
          if Score(population[0]) < Score(population[1]) {
            Sort();
          }
          var index := Pick(power, |population|);
          res := Done(Some(population[index]));
        }
        case FITNESS_PROPORTIONATE => {
          var k := Roulette(population, r, r2);
          res := Done(Some(population[k]));
        }
        case TOURNAMENT(size, probability) => {
          if size > popsize {
            res := Throws;
          } else {
            var g := Tournament(population, size, probability, d, q);
            res := Done(g);
          }
        }
        case UNKNOWN => {
          res := Throws;
        }
      }
    }

    /** `import(json)`, `load` standing for `Network.fromJSON`. */
    method Import(json: seq<NetworkJSON>, load: NetworkJSON -> Genome)
      modifies this
      ensures |population| == |json| == popsize
      ensures forall i :: 0 <= i < |json| ==> population[i] == load(json[i])
      ensures generation == old(generation)
    {
      var next := [];
      var i := 0;
      while i < |json|
        invariant i <= |json| && |next| == i
        invariant forall k :: 0 <= k < i ==> next[k] == load(json[k])
      {
        next := next + [load(json[i])];
        i := i + 1;
      }
      population := next;
      popsize := |next|;
    }
  }
}

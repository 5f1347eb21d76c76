// Model of Javascript/Cerebrum/src/Neuroevolution.js: the population of
// genomes, its mutation operators, crossover, speciation and one generation
// of `evolve`. `Math.random()` is a `RandomSource` whose values the caller
// fixes in advance; every method states which of its values it consumes.

module CerebrumNeuroevolution {
  import opened CerebrumConnection
  import opened CerebrumGene
  import opened CerebrumNetwork
  import opened CerebrumGenome
  import opened CerebrumHelper
  import opened CerebrumSpecies
  import opened CerebrumEvolutionSpec

  /** The successive values of `Math.random()`: the next one is `tape(used)`. */
  class RandomSource {
    const tape: nat -> real
    var used: nat

    ghost predicate Valid()
    {
      Draws(tape)
    }

    constructor (tape: nat -> real)
      requires forall i: nat :: 0.0 <= tape(i) < 1.0
      ensures Valid() && this.tape == tape && used == 0
    {
      this.tape := tape;
      used := 0;
    }

    method Next() returns (r: real)
      requires Valid()
      modifies this`used
      ensures r == tape(old(used)) && used == old(used) + 1
      ensures 0.0 <= r < 1.0
    {
      r := tape(used);
      used := used + 1;
    }
  }

  // ---------------------------------------------------------------------
  // Configuration.

  /** The keys of `config.mutationRates`; `None` is a key the caller omits. */
  datatype RateOverrides = RateOverrides(
    createConnection: Option<real>, createNode: Option<real>, modifyWeight: Option<real>,
    enableGene: Option<real>, disableGene: Option<real>, createBias: Option<real>,
    weightMutationStep: Option<real>)

  datatype Rates = Rates(
    createConnection: real, createNode: real, modifyWeight: real,
    enableGene: real, disableGene: real, createBias: real, weightMutationStep: real)

  /** The constructor's `config`. A number the caller omits and a number 0
      are both written 0 here: `config.x || d` treats them alike. */
  datatype Config = Config(
    populationSize: nat, mutationRates: RateOverrides, inputNodes: nat, outputNodes: nat,
    elitism: Option<bool>, deltaDisjoint: real, deltaWeights: real, deltaThreshold: real,
    hiddenNodeCap: nat)

  function Override(x: Option<real>, default: real): real
  {
    if x.Some? then x.value else default
  }

  /** `{ createConnection: 0.05, ..., ...config.mutationRates }`: a key the
      caller passes wins, even when its value is 0. */
  function MutationRates(o: RateOverrides): (r: Rates)
    ensures o.createNode.Some? ==> r.createNode == o.createNode.value
    ensures o.createNode.None? ==> r.createNode == 0.02
  {
    Rates(Override(o.createConnection, 0.05), Override(o.createNode, 0.02), Override(o.modifyWeight, 0.15),
          Override(o.enableGene, 0.05), Override(o.disableGene, 0.1), Override(o.createBias, 0.1),
          Override(o.weightMutationStep, 2.0))
  }

  /** `x || default` for a number. */
  function OrDefault(x: real, default: real): (r: real)
    ensures r != 0.0 || default == 0.0
  {
    if x == 0.0 then default else x
  }

  function OrDefaultNat(x: nat, default: nat): (r: nat)
    ensures r != 0 || default == 0
  {
    if x == 0 then default else x
  }

  // ---------------------------------------------------------------------
  // Predicates the class keeps or its operations promise.

  /** Every number in the innovation table was handed out already. */
  predicate InnovationsBelow(table: map<ConnKey, nat>, counter: nat)
  {
    forall k :: k in table ==> table[k] < counter
  }

  /** The table only grows, and every number it gains is one of those handed
      out between the two counter values. */
  predicate TableGrows(before: map<ConnKey, nat>, after: map<ConnKey, nat>, from: nat, to: nat)
  {
    && from <= to
    && (forall k :: k in before ==> k in after && after[k] == before[k])
    && (forall k :: k in after && k !in before ==> from <= after[k] < to)
  }

  lemma TableGrowsTransitive(a: map<ConnKey, nat>, b: map<ConnKey, nat>, c: map<ConnKey, nat>, x: nat, y: nat, z: nat)
    requires TableGrows(a, b, x, y) && TableGrows(b, c, y, z)
    ensures TableGrows(a, c, x, z)
  {
  }

  predicate DistinctSpecies(ss: seq<Species>)
  {
    forall i, j :: 0 <= i < j < |ss| ==> ss[i] != ss[j]
  }

  /** `groups` are the genome lists of `ss`, in order. */
  ghost predicate Holds(ss: seq<Species>, groups: seq<seq<Genome>>)
    reads ss
  {
    |ss| == |groups| && forall k :: 0 <= k < |ss| ==> ss[k].genomes == groups[k]
  }

  lemma HoldsGroups(ss: seq<Species>, groups: seq<seq<Genome>>)
    requires Holds(ss, groups)
    ensures Groups(ss) == groups
  {
  }

  /** The genome lists of the species, in order. */
  function Groups(ss: seq<Species>): (r: seq<seq<Genome>>)
    reads ss
    ensures |r| == |ss| && forall i :: 0 <= i < |ss| ==> r[i] == ss[i].genomes
  {
    seq(|ss|, i reads ss => if 0 <= i < |ss| then ss[i].genomes else [])
  }

  /** `species.reduce((sum, species) => sum + species.averageFitness, 0)`;
      a NaN average (`None`) makes the total NaN. */
  function TotalAverage(ss: seq<Species>): (r: Option<real>)
    reads ss
    ensures r.None? <==> exists k :: 0 <= k < |ss| && ss[k].averageFitness.None?
  {
    if ss == [] then Some(0.0)
    else
      var t := TotalAverage(ss[..|ss| - 1]);
      var a := ss[|ss| - 1].averageFitness;
      assert forall k :: 0 <= k < |ss| - 1 ==> ss[..|ss| - 1][k] == ss[k];
      if t.Some? && a.Some? then Some(t.value + a.value) else None
  }

  /** With every average a number, the total is their sum. */
  lemma {:induction false} TotalAverageOf(ss: seq<Species>, averages: seq<real>)
    requires |ss| == |averages|
    requires forall k :: 0 <= k < |ss| ==> ss[k].averageFitness == Some(averages[k])
    ensures TotalAverage(ss) == Some(SumReals(averages))
  {
    if ss != [] {
      var n := |ss| - 1;
      assert forall k :: 0 <= k < n ==> ss[..n][k] == ss[k] && averages[..n][k] == averages[k];
      TotalAverageOf(ss[..n], averages[..n]);
    }
  }

  /** A new genome's first link: fitness `-Number.MAX_VALUE` and a first
      gene from an input to an output. */
  predicate StartsWithLink(g: Genome)
  {
    g.fitness == -MaxValue && |g.genes| >= 1 && g.genes[0].from.Input? && g.genes[0].to.Output?
  }

  /** The shape of a new link: from an input to a hidden node or an output,
      or from a hidden node to an output. */
  predicate LinkShape(inNode: NodeId, outNode: NodeId)
  {
    (inNode.Input? && (outNode.Hidden? || outNode.Output?)) || (inNode.Hidden? && outNode.Output?)
  }

  /** The genome after the bias step picked node `n`: a BIAS gene into `n`
      is appended unless the network already connects BIAS to `n`. */
  function BiasOf(genome: Genome, connOrder: seq<ConnKey>, n: NodeId): (g: Genome)
    ensures Grows(genome, g) && |g.genes| <= |genome.genes| + 1
    ensures ConnKey(Bias, n) in connOrder <==> g == genome
    ensures g != genome ==> g.genes == genome.genes + [NewGene(Bias, n)]
  {
    if ConnKey(Bias, n) in connOrder then genome else genome.(genes := genome.genes + [NewGene(Bias, n)])
  }

  /** The weight change of `pointMutate` for the draw `r`. */
  function WeightShift(r: real, step: real): (d: real)
    requires 0.0 <= r < 1.0
    ensures step >= 0.0 ==> -step <= d <= step
  {
    assert step >= 0.0 ==> r * step <= step by {
      if step >= 0.0 {
        assert (1.0 - r) * step >= 0.0;
      }
    }
    r * step * 2.0 - step
  }

  // ---------------------------------------------------------------------
  // `mutate` as functions of the draws. Each step takes the position of its
  // first draw on the tape `t` and gives back the position after its last.

  /** Every value of the tape is a possible `Math.random()`. */
  ghost predicate Draws(t: nat -> real)
  {
    forall i: nat :: 0.0 <= t(i) < 1.0
  }

  /** What `mutate` carries from one step to the next: the tape position,
      `newInnovations` and `globalInnovationCounter`. */
  datatype Trail = Trail(used: nat, table: map<ConnKey, nat>, counter: nat)

  /** The endpoints `linkMutate` picks when the genome's network has the
      hidden nodes `hidden`, and the position after the draws. */
  function LinkEnds(inputNodes: nat, outputNodes: nat, hidden: seq<NodeId>, t: nat -> real, s: nat): (NodeId, NodeId, nat)
    requires Draws(t) && inputNodes >= 1 && outputNodes >= 1
  {
    if t(s) < 1.0 / 3.0 || |hidden| == 0 then
      (Input(RandomNumBetween(0, inputNodes - 1, t(s + 1))), Output(RandomNumBetween(0, outputNodes - 1, t(s + 2))), s + 3)
    else if t(s + 1) < 2.0 / 3.0 then
      (Input(RandomNumBetween(0, inputNodes - 1, t(s + 2))), hidden[RandomNumBetween(0, |hidden| - 1, t(s + 3))], s + 4)
    else
      (hidden[RandomNumBetween(0, |hidden| - 1, t(s + 2))], Output(RandomNumBetween(0, outputNodes - 1, t(s + 3))), s + 4)
  }

  /** `linkMutate(genome)`: a new gene between the chosen endpoints, unless
      the genome has one, numbered from the table or the counter. */
  function LinkOf(genome: Genome, t: nat -> real, trail: Trail): (Genome, Trail)
    requires Draws(t) && genome.inputNodes >= 1 && genome.outputNodes >= 1
  {
    var ends := LinkEnds(genome.inputNodes, genome.outputNodes, HiddenOf(genome.genes), t, trail.used);
    LinkedAt(genome, ends.0, ends.1, t, trail.(used := ends.2))
  }

  /** The tail of `linkMutate` once the endpoints `a` and `b` are drawn: a
      gene from `a` to `b`, weighted by the next draw, unless the genome has
      one. */
  function LinkedAt(genome: Genome, a: NodeId, b: NodeId, t: nat -> real, trail: Trail): (Genome, Trail)
    requires Draws(t)
  {
    var key, s := ConnKey(a, b), trail.used;
    if ContainsGene(genome, a, b) then (genome, trail)
    else if key in trail.table then
      (genome.(genes := genome.genes + [NewGeneNumbered(a, b, t(s) * 2.0 - 1.0, trail.table[key])]), trail.(used := s + 1))
    else
      (genome.(genes := genome.genes + [NewGeneNumbered(a, b, t(s) * 2.0 - 1.0, trail.counter)]),
       Trail(s + 1, trail.table[key := trail.counter], trail.counter + 1))
  }

  /** The link step only appends, and the gene it appends is new to the
      genome, links an input to a hidden node or an output or a hidden node
      to an output, is enabled, weighs in [-1, 1) and carries the number the
      table holds for its link afterwards: the number held before, or the
      counter, which then moves on by one. */
  lemma LinkOfFacts(genome: Genome, t: nat -> real, trail: Trail)
    requires Draws(t) && genome.inputNodes >= 1 && genome.outputNodes >= 1
    ensures var r := LinkOf(genome, t, trail);
            var g, tr, n := r.0, r.1, |genome.genes|;
            && Grows(genome, g) && |g.genes| <= n + 1 && g.genes[..n] == genome.genes
            && TableGrows(trail.table, tr.table, trail.counter, tr.counter)
            && (InnovationsBelow(trail.table, trail.counter) ==> InnovationsBelow(tr.table, tr.counter))
            && (n == 0 ==> |g.genes| == 1 && g.genes[0].from.Input? && g.genes[0].to.Output?)
            && (|g.genes| == n ==> tr.table == trail.table && tr.counter == trail.counter)
            && (|g.genes| == n + 1 ==>
                  var x := g.genes[n];
                  var key := ConnKey(x.from, x.to);
                  && !ContainsGene(genome, x.from, x.to)
                  && LinkShape(x.from, x.to) && x.enabled && -1.0 <= x.weight < 1.0
                  && key in tr.table && x.innovation == tr.table[key]
                  && (key in trail.table ==> tr.counter == trail.counter)
                  && (key !in trail.table ==> x.innovation == trail.counter && tr.counter == x.innovation + 1))
  {
    HiddenOfFacts(genome.genes);
  }

  /** The draw against `createConnection` and, below it, the link step. */
  function LinkStepOf(genome: Genome, rates: Rates, t: nat -> real, trail: Trail): (r: (Genome, Trail))
    requires Draws(t) && genome.inputNodes >= 1 && genome.outputNodes >= 1
    ensures Grows(genome, r.0) && |r.0.genes| <= |genome.genes| + 1
    ensures TableGrows(trail.table, r.1.table, trail.counter, r.1.counter)
    ensures InnovationsBelow(trail.table, trail.counter) ==> InnovationsBelow(r.1.table, r.1.counter)
  {
    if t(trail.used) < rates.createConnection then
      LinkOfFacts(genome, t, trail.(used := trail.used + 1));
      LinkOf(genome, t, trail.(used := trail.used + 1))
    else (genome, trail.(used := trail.used + 1))
  }

  /** The node-split step of `mutate`, `hidden` being the number of hidden
      nodes of the network built before the link mutation. */
  function SplitOf(genome: Genome, hidden: nat, rates: Rates, cap: nat, t: nat -> real, trail: Trail): (r: (Genome, Trail))
    requires Draws(t)
    ensures Grows(genome, r.0) && |r.0.genes| <= |genome.genes| + 2
    ensures r.1.table == trail.table && trail.counter <= r.1.counter
  {
    var s := trail.used;
    if t(s) < rates.createNode && |genome.genes| > 0 && hidden < cap then
      var split := SplitAt(genome, RandomNumBetween(0, |genome.genes| - 1, t(s + 1)), cap, trail.counter);
      (split.0, trail.(used := s + 2, counter := split.1))
    else (genome, trail.(used := s + 1))
  }

  /** The split of gene `i`, with the counter after it: a split takes the
      next two numbers. */
  function SplitAt(genome: Genome, i: nat, cap: nat, counter: nat): (Genome, nat)
    requires i < |genome.genes|
  {
    (NodeSplitOf(genome, i, cap, counter), if SplitsAt(genome, i, cap) then counter + 2 else counter)
  }

  /** The bias step of `mutate` over a network with `inputNodes` inputs, the
      hidden nodes `hidden` and the connection keys `keys`. */
  function BiasStepOf(genome: Genome, inputNodes: nat, hidden: seq<NodeId>, keys: seq<ConnKey>,
                      rates: Rates, t: nat -> real, s: nat): (r: (Genome, nat))
    requires Draws(t)
    ensures Grows(genome, r.0) && |r.0.genes| <= |genome.genes| + 1
  {
    if t(s) >= rates.createBias then (genome, s + 1)
    else if t(s + 1) > 0.5 && inputNodes > 0 then
      (BiasOf(genome, keys, Input(RandomNumBetween(0, inputNodes - 1, t(s + 2)))), s + 3)
    else if |hidden| > 0 then
      (BiasOf(genome, keys, hidden[RandomNumBetween(0, |hidden| - 1, t(s + 2))]), s + 3)
    else (genome, s + 2)
  }

  /** `pointMutate(gene)`: a weight change after a draw below
      `modifyWeight`, then the enable and disable draws, disabling winning. */
  function PointMutated(gene: Gene, rates: Rates, t: nat -> real, s: nat): (Gene, nat)
    requires Draws(t)
  {
    var shift := t(s) < rates.modifyWeight;
    var e := if shift then s + 2 else s + 1;
    (gene.(weight := if shift then gene.weight + WeightShift(t(s + 1), rates.weightMutationStep) else gene.weight,
           enabled := if t(e + 1) < rates.disableGene then false else if t(e) < rates.enableGene then true else gene.enabled),
     e + 2)
  }

  /** `genes.map((gene) => this.pointMutate(gene))`, left to right. */
  function PointMutatedAll(genes: seq<Gene>, rates: Rates, t: nat -> real, s: nat): (r: (seq<Gene>, nat))
    requires Draws(t)
    ensures |r.0| == |genes|
  {
    if genes == [] then ([], s)
    else
      var front := PointMutatedAll(genes[..|genes| - 1], rates, t, s);
      var x := PointMutated(genes[|genes| - 1], rates, t, front.1);
      (front.0 + [x.0], x.1)
  }

  /** One turn of the `forEach` of `mutate`: the link step, the node split,
      the bias step (over the network rebuilt by a split, else the one built
      before the link) and the point mutation of every gene. */
  function MutatedGenome(genome: Genome, rates: Rates, cap: nat, t: nat -> real, trail: Trail): (r: (Genome, Trail))
    requires Draws(t) && genome.inputNodes >= 1 && genome.outputNodes >= 1
    ensures TableGrows(trail.table, r.1.table, trail.counter, r.1.counter)
    ensures InnovationsBelow(trail.table, trail.counter) ==> InnovationsBelow(r.1.table, r.1.counter)
  {
    var link := LinkStepOf(genome, rates, t, trail);
    var split := SplitOf(link.0, |HiddenOf(genome.genes)|, rates, cap, t, link.1);
    var built := if split.1.counter == link.1.counter then genome else split.0;
    var tail := TailOf(split.0, genome.inputNodes, HiddenOf(built.genes), KeysOf(built.genes), rates, t, split.1.used);
    (tail.0, split.1.(used := tail.1))
  }

  /** The bias step and the point mutation of every gene. */
  function TailOf(genome: Genome, inputNodes: nat, hidden: seq<NodeId>, keys: seq<ConnKey>,
                  rates: Rates, t: nat -> real, s: nat): (r: (Genome, nat))
    requires Draws(t)
    ensures Grows(genome, r.0) && |r.0.genes| <= |genome.genes| + 1
  {
    var bias := BiasStepOf(genome, inputNodes, hidden, keys, rates, t, s);
    var point := PointMutatedAll(bias.0.genes, rates, t, bias.1);
    PointMutatedAllKeeps(bias.0.genes, rates, t, bias.1);
    GrowsTransitive(genome, bias.0, bias.0.(genes := point.0));
    (bias.0.(genes := point.0), point.1)
  }

  /** One genome's mutation keeps its existing innovations and appends at
      most four genes. */
  lemma MutatedGenomeGrows(genome: Genome, rates: Rates, cap: nat, t: nat -> real, trail: Trail)
    requires Draws(t) && genome.inputNodes >= 1 && genome.outputNodes >= 1
    ensures var g := MutatedGenome(genome, rates, cap, t, trail).0;
            Grows(genome, g) && |g.genes| <= |genome.genes| + 4
  {
    var link := LinkStepOf(genome, rates, t, trail);
    var split := SplitOf(link.0, |HiddenOf(genome.genes)|, rates, cap, t, link.1);
    var built := if split.1.counter == link.1.counter then genome else split.0;
    var tail := TailOf(split.0, genome.inputNodes, HiddenOf(built.genes), KeysOf(built.genes), rates, t, split.1.used);
    GrowsTransitive(genome, link.0, split.0);
    GrowsTransitive(genome, split.0, tail.0);
  }

  /** `mutateGenome` as a step that threads the trail from one genome to
      the next; a genome without inputs or outputs, which the engine never
      holds, is passed through. */
  function MutationStep(rates: Rates, cap: nat, t: nat -> real): (Genome, Trail) -> (Genome, Trail)
    requires Draws(t)
  {
    (g: Genome, tr: Trail) =>
      if g.inputNodes >= 1 && g.outputNodes >= 1 then MutatedGenome(g, rates, cap, t, tr) else (g, tr)
  }

  /** `step` is `mutateGenome` on every genome with inputs and outputs. */
  ghost predicate IsMutationStep(step: (Genome, Trail) -> (Genome, Trail), rates: Rates, cap: nat, t: nat -> real)
    requires Draws(t)
  {
    forall g: Genome, tr: Trail {:trigger MutatedGenome(g, rates, cap, t, tr)} ::
      g.inputNodes >= 1 && g.outputNodes >= 1 ==> step(g, tr) == MutatedGenome(g, rates, cap, t, tr)
  }

  /** The `forEach` of `mutate()`: `step` applied to every genome in turn,
      the trail running through them. */
  function Threaded(genomes: seq<Genome>, step: (Genome, Trail) -> (Genome, Trail), trail: Trail): (r: (seq<Genome>, Trail))
    ensures |r.0| == |genomes|
  {
    if genomes == [] then ([], trail)
    else
      var n := |genomes| - 1;
      var front := Threaded(genomes[..n], step, trail);
      var last := step(genomes[n], front.1);
      (front.0 + [last.0], last.1)
  }

  /** `mutate()`: `mutateGenome` on every genome in turn. */
  function MutatedAll(genomes: seq<Genome>, rates: Rates, cap: nat, t: nat -> real, trail: Trail): (r: (seq<Genome>, Trail))
    requires Draws(t)
    ensures |r.0| == |genomes|
  {
    Threaded(genomes, MutationStep(rates, cap, t), trail)
  }

  /** Point mutation keeps every gene's endpoints and innovation number,
      moves each weight by at most the step, and takes three or four draws
      per gene. */
  lemma {:induction false} PointMutatedAllKeeps(genes: seq<Gene>, rates: Rates, t: nat -> real, s: nat)
    requires Draws(t)
    ensures var r := PointMutatedAll(genes, rates, t, s);
            && s + 3 * |genes| <= r.1 <= s + 4 * |genes|
            && forall j :: 0 <= j < |genes| ==>
                 && r.0[j].innovation == genes[j].innovation && r.0[j].from == genes[j].from && r.0[j].to == genes[j].to
                 && (rates.weightMutationStep >= 0.0 ==>
                       genes[j].weight - rates.weightMutationStep <= r.0[j].weight <= genes[j].weight + rates.weightMutationStep)
  {
    if genes != [] {
      PointMutatedAllKeeps(genes[..|genes| - 1], rates, t, s);
    }
  }

  /** Threading over one more genome appends what the step makes of it. */
  lemma ThreadedNext(genomes: seq<Genome>, i: nat, step: (Genome, Trail) -> (Genome, Trail), trail: Trail)
    requires i < |genomes|
    ensures var front := Threaded(genomes[..i], step, trail);
            var last := step(genomes[i], front.1);
            Threaded(genomes[..i + 1], step, trail) == (front.0 + [last.0], last.1)
  {
    assert genomes[..i + 1][..i] == genomes[..i];
  }

  /** Genome `i` of `after` grew from genome `i` of `before`, for every `i`. */
  predicate AllGrow(before: seq<Genome>, after: seq<Genome>)
    decreases |before|
  {
    && |before| == |after|
    && (before != [] ==>
          var n := |before| - 1;
          AllGrow(before[..n], after[..n]) && Grows(before[n], after[n]))
  }

  lemma {:induction false} AllGrowAt(before: seq<Genome>, after: seq<Genome>, i: nat)
    requires AllGrow(before, after) && i < |before|
    ensures Grows(before[i], after[i])
    decreases |before|
  {
    var n := |before| - 1;
    if i < n {
      AllGrowAt(before[..n], after[..n], i);
    }
  }

  /** `mutate()` keeps every genome's shape and existing innovations. */
  lemma {:induction false} MutatedAllGrows(genomes: seq<Genome>, step: (Genome, Trail) -> (Genome, Trail),
                                           rates: Rates, cap: nat, t: nat -> real, trail: Trail)
    requires Draws(t) && IsMutationStep(step, rates, cap, t)
    requires forall k :: 0 <= k < |genomes| ==> genomes[k].inputNodes >= 1 && genomes[k].outputNodes >= 1
    ensures AllGrow(genomes, Threaded(genomes, step, trail).0)
  {
    if genomes != [] {
      var n := |genomes| - 1;
      var front := Threaded(genomes[..n], step, trail);
      MutatedAllGrows(genomes[..n], step, rates, cap, t, trail);
      MutatedGenomeGrows(genomes[n], rates, cap, t, front.1);
      var r := Threaded(genomes, step, trail).0;
      assert r[..n] == front.0;
    }
  }

  /** Across `mutate()` every number already in the table stays, and the
      table gains only numbers the counter hands out. */
  lemma {:induction false} MutatedAllTable(genomes: seq<Genome>, step: (Genome, Trail) -> (Genome, Trail),
                                           rates: Rates, cap: nat, t: nat -> real, trail: Trail)
    requires Draws(t) && IsMutationStep(step, rates, cap, t)
    requires forall k :: 0 <= k < |genomes| ==> genomes[k].inputNodes >= 1 && genomes[k].outputNodes >= 1
    ensures var r := Threaded(genomes, step, trail).1;
            && TableGrows(trail.table, r.table, trail.counter, r.counter)
            && (InnovationsBelow(trail.table, trail.counter) ==> InnovationsBelow(r.table, r.counter))
  {
    if genomes != [] {
      var n := |genomes| - 1;
      var front := Threaded(genomes[..n], step, trail);
      MutatedAllTable(genomes[..n], step, rates, cap, t, trail);
      var last := MutatedGenome(genomes[n], rates, cap, t, front.1);
      TableGrowsTransitive(trail.table, front.1.table, last.1.table, trail.counter, front.1.counter, last.1.counter);
    }
  }

  class Neuroevolution {
    const populationSize: nat
    const mutationRates: Rates
    const inputNodes: nat
    const outputNodes: nat
    /** Read by nothing in the engine. */
    const elitism: bool
    const deltas: Deltas
    const hiddenNodeCap: nat
    var genomes: seq<Genome>
    var globalInnovationCounter: nat
    var currentGeneration: nat
    var species: seq<Species>
    /** The innovation number given this generation to each new link. */
    var newInnovations: map<ConnKey, nat>

    ghost predicate Valid()
      reads this
    {
      && globalInnovationCounter >= 1
      && InnovationsBelow(newInnovations, globalInnovationCounter)
      && AllShaped(genomes, inputNodes, outputNodes)
      && DistinctSpecies(species)
    }

    /** The species as `evolve` has them before breeding: none empty, all
        of the population's shape, and averaging `averages`. */
    ghost predicate Ranked(averages: seq<real>)
      reads this, species
    {
      && |averages| == |species|
      && forall k :: 0 <= k < |species| ==>
           && |species[k].genomes| > 0 && AllShaped(species[k].genomes, inputNodes, outputNodes)
           && species[k].averageFitness == Some(averages[k])
    }

    /** Over ranked species the `reduce` of `evolve` is the sum of the
        averages. */
    lemma RankedTotal(averages: seq<real>)
      requires Ranked(averages)
      ensures TotalAverage(species) == Some(SumReals(averages))
    {
      TotalAverageOf(species, averages);
    }

    /** `new Neuroevolution(config)`. */
    constructor (config: Config)
      ensures Valid()
      ensures populationSize == OrDefaultNat(config.populationSize, 100)
      ensures mutationRates == MutationRates(config.mutationRates)
      ensures inputNodes == config.inputNodes && outputNodes == config.outputNodes
      ensures elitism == (config.elitism.None? || config.elitism.value)
      ensures deltas == Deltas(OrDefault(config.deltaDisjoint, 2.0), OrDefault(config.deltaWeights, 0.4),
                               OrDefault(config.deltaThreshold, 2.0))
      ensures hiddenNodeCap == OrDefaultNat(config.hiddenNodeCap, 10)
      ensures genomes == [] && species == [] && newInnovations == map[]
      ensures globalInnovationCounter == 1 && currentGeneration == 0
    {
      populationSize := OrDefaultNat(config.populationSize, 100);
      mutationRates := MutationRates(config.mutationRates);
      inputNodes := config.inputNodes;
      outputNodes := config.outputNodes;
      elitism := if config.elitism.Some? then config.elitism.value else true;
      deltas := Deltas(OrDefault(config.deltaDisjoint, 2.0), OrDefault(config.deltaWeights, 0.4),
                       OrDefault(config.deltaThreshold, 2.0));
      hiddenNodeCap := OrDefaultNat(config.hiddenNodeCap, 10);
      genomes := [];
      globalInnovationCounter := 1;
      currentGeneration := 0;
      species := [];
      newInnovations := map[];
    }

    /** The endpoint choice at the head of `linkMutate`: input to output, or
        (only when the network has hidden nodes) input to hidden or hidden
        to output. */
    static method PickEndpoints(network: Network, rng: RandomSource) returns (inNode: NodeId, outNode: NodeId)
      requires rng.Valid() && network.Valid()
      requires |network.inputs| >= 1 && |network.outputs| >= 1
      modifies rng`used
      ensures (inNode, outNode, rng.used) == LinkEnds(|network.inputs|, |network.outputs|, network.hidden, rng.tape, old(rng.used))
      ensures LinkShape(inNode, outNode)
    {
      var r := rng.Next();
      var a, b;
      if r < 1.0 / 3.0 || |network.hidden| == 0 {
        a := rng.Next();
        b := rng.Next();
        inNode := network.inputs[RandomNumBetween(0, |network.inputs| - 1, a)];
        outNode := network.outputs[RandomNumBetween(0, |network.outputs| - 1, b)];
      } else {
        var r2 := rng.Next();
        a := rng.Next();
        b := rng.Next();
        if r2 < 2.0 / 3.0 {
          inNode := network.inputs[RandomNumBetween(0, |network.inputs| - 1, a)];
          outNode := network.hidden[RandomNumBetween(0, |network.hidden| - 1, b)];
        } else {
          inNode := network.hidden[RandomNumBetween(0, |network.hidden| - 1, a)];
          outNode := network.outputs[RandomNumBetween(0, |network.outputs| - 1, b)];
        }
      }
    }

    /** The lookup in `newInnovations` at the end of `linkMutate`: the number
        the link already has this generation, or the next counter value. */
    method InnovationFor(key: ConnKey) returns (innovation: nat)
      requires Valid()
      modifies this`globalInnovationCounter, this`newInnovations
      ensures Valid()
      ensures TableGrows(old(newInnovations), newInnovations, old(globalInnovationCounter), globalInnovationCounter)
      ensures key in newInnovations && innovation == newInnovations[key]
      ensures key in old(newInnovations) ==>
                newInnovations == old(newInnovations) && globalInnovationCounter == old(globalInnovationCounter)
      ensures key !in old(newInnovations) ==>
                && innovation == old(globalInnovationCounter) && globalInnovationCounter == innovation + 1
                && newInnovations == old(newInnovations)[key := innovation]
    {
      if key !in newInnovations {
        innovation := globalInnovationCounter;
        newInnovations := newInnovations[key := innovation];
        globalInnovationCounter := globalInnovationCounter + 1;
      } else {
        innovation := newInnovations[key];
      }
    }

    /** `linkMutate(genome)`: when the genome has no gene between the chosen
        endpoints, append one with a weight in [-1, 1) and the innovation
        number this generation already gave that link, or a new one. */
    method LinkMutate(genome: Genome, rng: RandomSource) returns (g: Genome)
      requires Valid() && rng.Valid()
      requires genome.inputNodes >= 1 && genome.outputNodes >= 1
      modifies this`globalInnovationCounter, this`newInnovations, rng`used
      ensures Valid()
      ensures (g, Trail(rng.used, newInnovations, globalInnovationCounter))
              == LinkOf(genome, rng.tape, Trail(old(rng.used), old(newInnovations), old(globalInnovationCounter)))
    {
      var network := GetNetwork(genome);
      var inNode, outNode := PickEndpoints(network, rng);
      g := AppendLink(genome, inNode, outNode, rng);
    }

    /** The tail of `linkMutate` once the endpoints are drawn. */
    method AppendLink(genome: Genome, inNode: NodeId, outNode: NodeId, rng: RandomSource) returns (g: Genome)
      requires Valid() && rng.Valid()
      modifies this`globalInnovationCounter, this`newInnovations, rng`used
      ensures Valid()
      ensures (g, Trail(rng.used, newInnovations, globalInnovationCounter))
              == LinkedAt(genome, inNode, outNode, rng.tape, Trail(old(rng.used), old(newInnovations), old(globalInnovationCounter)))
    {
      g := genome;
      if !ContainsGene(genome, inNode, outNode) {
        var r := rng.Next();
        var innovation := InnovationFor(ConnKey(inNode, outNode));
        g := genome.(genes := genome.genes + [NewGeneNumbered(inNode, outNode, r * 2.0 - 1.0, innovation)]);
      }
    }
  
    /** The node-split step of `mutate`, with the network built before the
        link mutation: one draw against `createNode`; when the genome has
        genes and the network fewer hidden nodes than the cap, a draw picks
        the gene to split. A split rebuilds the network. */
    method NodeSplit(genome: Genome, network: Network, rng: RandomSource) returns (g: Genome, net: Network)
      requires Valid() && rng.Valid() && network.Valid()
      modifies this`globalInnovationCounter, rng`used
      ensures Valid() && net.Valid()
      ensures (g, Trail(rng.used, newInnovations, globalInnovationCounter))
              == SplitOf(genome, |network.hidden|, mutationRates, hiddenNodeCap, rng.tape,
                         Trail(old(rng.used), newInnovations, old(globalInnovationCounter)))
      ensures g == genome ==> net == network
      ensures g != genome ==>
                && fresh(net) && Materialised(net, g.inputNodes, g.outputNodes)
                && net.hidden == HiddenOf(g.genes) && net.connections == ConnsOf(g.genes)
                && net.connOrder == KeysOf(g.genes)
    {
      g, net := genome, network;
      var r := rng.Next();
      if r < mutationRates.createNode && |genome.genes| > 0 && |network.hidden| < hiddenNodeCap {
        var d := rng.Next();
        g, net := SplitGene(genome, RandomNumBetween(0, |genome.genes| - 1, d), network);
      }
    }

    /** The split of gene `i` in `mutate`: an enabled INPUT-to-OUTPUT gene is
        split at the first free HIDDEN name when that name is below the cap,
        taking the next two innovation numbers. */
    method SplitGene(genome: Genome, i: nat, network: Network) returns (g: Genome, net: Network)
      requires Valid() && network.Valid() && i < |genome.genes|
      modifies this`globalInnovationCounter
      ensures Valid() && net.Valid()
      ensures (g, globalInnovationCounter) == SplitAt(genome, i, hiddenNodeCap, old(globalInnovationCounter))
      ensures g == genome ==> net == network
      ensures g != genome ==>
                && fresh(net) && Materialised(net, g.inputNodes, g.outputNodes)
                && net.hidden == HiddenOf(g.genes) && net.connections == ConnsOf(g.genes)
                && net.connOrder == KeysOf(g.genes)
    {
      g, net := genome, network;
      var gene := genome.genes[i];
      IncludesRole(gene.from);
      IncludesRole(gene.to);
      if gene.enabled && Includes(Name(gene.from), "INPUT") && Includes(Name(gene.to), "OUTPUT") {
        var k := FindFreeHidden(genome.genes);
        if k < hiddenNodeCap {
          g := Split(genome, i, k, globalInnovationCounter);
          globalInnovationCounter := globalInnovationCounter + 2;
          net := GetNetwork(g);
        }
      }
    }

    /** The `while` at Neuroevolution.js line 69. */
    static method FindFreeHidden(genes: seq<Gene>) returns (k: nat)
      ensures k == FirstFree(genes, 0)
    {
      k := 0;
      while MentionsHidden(genes, k)
        invariant FirstFree(genes, k) == FirstFree(genes, 0)
        decreases MaxHiddenIndex(genes) + 1 - k
      {
        MentionedBelowMax(genes, k);
        k := k + 1;
      }
    }

    /** The bias step of `mutate`: one draw against `createBias`; then a draw
        above 0.5 with inputs present picks an input, otherwise a non-empty
        hidden list gives a hidden node. */
    method BiasMutate(genome: Genome, network: Network, rng: RandomSource) returns (g: Genome)
      requires rng.Valid() && network.Valid()
      modifies rng`used
      ensures var t, s := rng.tape, old(rng.used);
              if t(s) >= mutationRates.createBias then g == genome && rng.used == s + 1
              else if t(s + 1) > 0.5 && |network.inputs| > 0 then
                && rng.used == s + 3
                && g == BiasOf(genome, network.connOrder, network.inputs[RandomNumBetween(0, |network.inputs| - 1, t(s + 2))])
              else if |network.hidden| > 0 then
                && rng.used == s + 3
                && g == BiasOf(genome, network.connOrder, network.hidden[RandomNumBetween(0, |network.hidden| - 1, t(s + 2))])
              else g == genome && rng.used == s + 2
      ensures (g, rng.used) == BiasStepOf(genome, |network.inputs|, network.hidden, network.connOrder, mutationRates,
                                          rng.tape, old(rng.used))
      ensures Grows(genome, g) && |g.genes| <= |genome.genes| + 1
    {
      g := genome;
      var r := rng.Next();
      if r < mutationRates.createBias {
        var r2 := rng.Next();
        if r2 > 0.5 && |network.inputs| > 0 {
          var d := rng.Next();
          g := AddBias(genome, network, network.inputs[RandomNumBetween(0, |network.inputs| - 1, d)]);
        } else if |network.hidden| > 0 {
          var d := rng.Next();
          g := AddBias(genome, network, network.hidden[RandomNumBetween(0, |network.hidden| - 1, d)]);
        }
      }
    }

    /** The `getConnection` test and the push of the bias step. */
    static method AddBias(genome: Genome, network: Network, n: NodeId) returns (g: Genome)
      requires network.Valid()
      ensures g == BiasOf(genome, network.connOrder, n)
    {
      g := genome;
      if network.GetConnection(ConnKey(Bias, n)).None? {
        g := genome.(genes := genome.genes + [NewGene(Bias, n)]);
      }
    }

    /** `pointMutate(gene)`: a draw against `modifyWeight` (and, when below,
        a draw for the weight change), then one against `enableGene` and one
        against `disableGene`; disabling wins. */
    method PointMutate(gene: Gene, rng: RandomSource) returns (x: Gene)
      requires rng.Valid()
      modifies rng`used
      ensures var t, s := rng.tape, old(rng.used);
              var e := if t(s) < mutationRates.modifyWeight then s + 2 else s + 1;
              && x.innovation == gene.innovation && x.from == gene.from && x.to == gene.to
              && x.weight == (if t(s) < mutationRates.modifyWeight
                              then gene.weight + WeightShift(t(s + 1), mutationRates.weightMutationStep)
                              else gene.weight)
              && x.enabled == (if t(e + 1) < mutationRates.disableGene then false
                               else if t(e) < mutationRates.enableGene then true
                               else gene.enabled)
              && rng.used == e + 2
      ensures (x, rng.used) == PointMutated(gene, mutationRates, rng.tape, old(rng.used))
    {
      x := gene;
      var r := rng.Next();
      if r < mutationRates.modifyWeight {
        var w := rng.Next();
        x := x.(weight := x.weight + WeightShift(w, mutationRates.weightMutationStep));
      }
      r := rng.Next();
      if r < mutationRates.enableGene {
        x := x.(enabled := true);
      }
      r := rng.Next();
      if r < mutationRates.disableGene {
        x := x.(enabled := false);
      }
    }

    /** `genome.genes.map((gene) => this.pointMutate(gene))`. */
    method PointMutateAll(genome: Genome, rng: RandomSource) returns (g: Genome)
      requires rng.Valid()
      modifies rng`used
      ensures g == genome.(genes := g.genes)
      ensures (g.genes, rng.used) == PointMutatedAll(genome.genes, mutationRates, rng.tape, old(rng.used))
      ensures Grows(genome, g) && |g.genes| == |genome.genes|
      ensures mutationRates.weightMutationStep >= 0.0 ==>
                forall j :: 0 <= j < |g.genes| ==>
                  genome.genes[j].weight - mutationRates.weightMutationStep <= g.genes[j].weight
                  <= genome.genes[j].weight + mutationRates.weightMutationStep
    {
      var genes: seq<Gene> := [];
      for i := 0 to |genome.genes|
        invariant (genes, rng.used) == PointMutatedAll(genome.genes[..i], mutationRates, rng.tape, old(rng.used))
      {
        var x := PointMutate(genome.genes[i], rng);
        assert genome.genes[..i + 1][..i] == genome.genes[..i];
        genes := genes + [x];
      }
      assert genome.genes[..|genome.genes|] == genome.genes;
      PointMutatedAllKeeps(genome.genes, mutationRates, rng.tape, old(rng.used));
      g := genome.(genes := genes);
    }

    /** The body of the `forEach` of `mutate` for one genome. */
    method MutateGenome(genome: Genome, rng: RandomSource) returns (g: Genome)
      requires Valid() && rng.Valid()
      requires genome.inputNodes >= 1 && genome.outputNodes >= 1
      modifies this`globalInnovationCounter, this`newInnovations, rng`used
      ensures Valid()
      ensures (g, Trail(rng.used, newInnovations, globalInnovationCounter))
              == MutatedGenome(genome, mutationRates, hiddenNodeCap, rng.tape,
                               Trail(old(rng.used), old(newInnovations), old(globalInnovationCounter)))
    {
      ghost var trail := Trail(rng.used, newInnovations, globalInnovationCounter);
      var network := GetNetwork(genome);
      var g0 := LinkStep(genome, rng);
      ghost var link := LinkStepOf(genome, mutationRates, rng.tape, trail);
      var g1, net := NodeSplit(g0, network, rng);
      ghost var split := SplitOf(link.0, |HiddenOf(genome.genes)|, mutationRates, hiddenNodeCap, rng.tape, link.1);
      assert (g1, Trail(rng.used, newInnovations, globalInnovationCounter)) == split;
      ghost var built := if split.1.counter == link.1.counter then genome else split.0;
      assert |net.inputs| == genome.inputNodes && net.hidden == HiddenOf(built.genes) && net.connOrder == KeysOf(built.genes);
      g := MutateTail(g1, net, rng);
      ghost var tail := TailOf(split.0, genome.inputNodes, HiddenOf(built.genes), KeysOf(built.genes), mutationRates,
                               rng.tape, split.1.used);
      assert (g, rng.used) == tail;
    }

    /** The bias step and `genome.genes.map((gene) => this.pointMutate(gene))`. */
    method MutateTail(genome: Genome, network: Network, rng: RandomSource) returns (g: Genome)
      requires rng.Valid() && network.Valid()
      modifies rng`used
      ensures (g, rng.used) == TailOf(genome, |network.inputs|, network.hidden, network.connOrder, mutationRates,
                                      rng.tape, old(rng.used))
    {
      var g1 := BiasMutate(genome, network, rng);
      g := PointMutateAll(g1, rng);
    }

    /** The draw against `createConnection` and, below it, `linkMutate`. */
    method LinkStep(genome: Genome, rng: RandomSource) returns (g: Genome)
      requires Valid() && rng.Valid()
      requires genome.inputNodes >= 1 && genome.outputNodes >= 1
      modifies this`globalInnovationCounter, this`newInnovations, rng`used
      ensures Valid()
      ensures (g, Trail(rng.used, newInnovations, globalInnovationCounter))
              == LinkStepOf(genome, mutationRates, rng.tape, Trail(old(rng.used), old(newInnovations), old(globalInnovationCounter)))
    {
      g := genome;
      var r := rng.Next();
      if r < mutationRates.createConnection {
        g := LinkMutate(g, rng);
      }
    }

    /** `mutate()`: every genome in turn. */
    method Mutate(rng: RandomSource)
      requires Valid() && rng.Valid()
      requires inputNodes >= 1 && outputNodes >= 1
      modifies this`genomes, this`globalInnovationCounter, this`newInnovations, rng`used
      ensures Valid()
      ensures (genomes, Trail(rng.used, newInnovations, globalInnovationCounter))
              == MutatedAll(old(genomes), mutationRates, hiddenNodeCap, rng.tape,
                            Trail(old(rng.used), old(newInnovations), old(globalInnovationCounter)))
      ensures TableGrows(old(newInnovations), newInnovations, old(globalInnovationCounter), globalInnovationCounter)
      ensures |genomes| == |old(genomes)|
      ensures forall i :: 0 <= i < |genomes| ==> Grows(old(genomes)[i], genomes[i])
    {
      ghost var before := genomes;
      ghost var trail := Trail(rng.used, newInnovations, globalInnovationCounter);
      ghost var step := MutationStep(mutationRates, hiddenNodeCap, rng.tape);
      for i := 0 to |genomes|
        invariant MutatedUpTo(i, before, step, rng.tape, rng.used, trail)
      {
        MutateAt(i, before, rng, step, trail);
      }
      assert before[..|before|] == before && genomes[..|genomes|] == genomes;
      MutatedAllGrows(before, step, mutationRates, hiddenNodeCap, rng.tape, trail);
      MutatedAllTable(before, step, mutationRates, hiddenNodeCap, rng.tape, trail);
      forall i | 0 <= i < |genomes|
        ensures Grows(before[i], genomes[i])
      {
        AllGrowAt(before, genomes, i);
      }
    }

    /** The state after the `forEach` of `mutate` has visited the first `i`
        genomes of `before` with `step`, starting from `trail`. */
    ghost predicate MutatedUpTo(i: nat, before: seq<Genome>, step: (Genome, Trail) -> (Genome, Trail),
                                t: nat -> real, used: nat, trail: Trail)
      reads this
    {
      && Valid() && inputNodes >= 1 && outputNodes >= 1 && Draws(t)
      && IsMutationStep(step, mutationRates, hiddenNodeCap, t)
      && AllShaped(before, inputNodes, outputNodes)
      && |genomes| == |before| && i <= |before|
      && (forall j :: i <= j < |genomes| ==> genomes[j] == before[j])
      && (genomes[..i], Trail(used, newInnovations, globalInnovationCounter)) == Threaded(before[..i], step, trail)
    }

    /** One turn of the `forEach` of `mutate`. */
    method MutateAt(i: nat, ghost before: seq<Genome>, rng: RandomSource,
                    ghost step: (Genome, Trail) -> (Genome, Trail), ghost trail: Trail)
      requires rng.Valid() && MutatedUpTo(i, before, step, rng.tape, rng.used, trail) && i < |before|
      modifies this`genomes, this`globalInnovationCounter, this`newInnovations, rng`used
      ensures MutatedUpTo(i + 1, before, step, rng.tape, rng.used, trail)
    {
      ghost var tr := Trail(rng.used, newInnovations, globalInnovationCounter);
      ghost var front := genomes[..i];
      var g := MutateGenome(genomes[i], rng);
      MutatedGenomeGrows(before[i], mutationRates, hiddenNodeCap, rng.tape, tr);
      ThreadedNext(before, i, step, trail);
      genomes := genomes[i := g];
      assert genomes[..i + 1] == front + [g];
    }

    /** `new Genome(inputNodes, outputNodes)`: the constructor draws the
        genome's `randomIdentifier`, which nothing reads, so only the draw
        is kept. */
    static method CreateGenome(inputNodes: nat, outputNodes: nat, rng: RandomSource) returns (g: Genome)
      requires rng.Valid()
      modifies rng`used
      ensures g == NewGenome(inputNodes, outputNodes) && rng.used == old(rng.used) + 1
    {
      var randomIdentifier := rng.Next();
      g := NewGenome(inputNodes, outputNodes);
    }

    /** `crossover(first, second)` for the draws from `rng`: one for the
        child's `new Genome`, then one per shared innovation. */
    method Crossover(first: Genome, second: Genome, rng: RandomSource) returns (child: Genome)
      requires rng.Valid()
      modifies rng`used
      ensures child == CrossoverOf(first, second, rng.tape, old(rng.used))
      ensures rng.used == old(rng.used) + 1 + SharedCount(first.genes, IndexByInnovation(second.genes))
    {
      child := CreateGenome(first.inputNodes, first.outputNodes, rng);
      var front := MatchedGenes(first.genes, second.genes, rng);
      var rest := UnmatchedGenes(second.genes, IndexByInnovation(first.genes));
      child := child.(genes := front + rest);
    }

    /** The first `forEach` of `crossover`. */
    static method MatchedGenes(genes: seq<Gene>, second: seq<Gene>, rng: RandomSource) returns (front: seq<Gene>)
      requires rng.Valid()
      modifies rng`used
      ensures front == CrossFront(genes, second, IndexByInnovation(second), rng.tape, old(rng.used))
      ensures rng.used == old(rng.used) + SharedCount(genes, IndexByInnovation(second))
    {
      var secondIndex := IndexByInnovation(second);
      front := [];
      for i := 0 to |genes|
        invariant front == CrossFront(genes[..i], second, secondIndex, rng.tape, old(rng.used))
        invariant rng.used == old(rng.used) + SharedCount(genes[..i], secondIndex)
      {
        CrossFrontStep(genes, i, second, secondIndex, rng.tape, old(rng.used));
        var x := CloneGene(genes[i], second, rng);
        front := front + [x];
      }
      assert genes[..|genes|] == genes;
    }

    /** One turn of the first `forEach` of `crossover`. */
    static method CloneGene(gene: Gene, second: seq<Gene>, rng: RandomSource) returns (x: Gene)
      requires rng.Valid()
      modifies rng`used
      ensures var other := IndexByInnovation(second);
              && x == (if gene.innovation in other && other[gene.innovation] < |second| && rng.tape(old(rng.used)) >= 0.5
                       then second[other[gene.innovation]] else gene)
              && rng.used == old(rng.used) + (if gene.innovation in other then 1 else 0)
    {
      var secondIndex := IndexByInnovation(second);
      x := gene;
      if gene.innovation in secondIndex {
        IndexByInnovationFacts(second, gene.innovation);
        var r := rng.Next();
        x := if r < 0.5 then gene else second[secondIndex[gene.innovation]];
      }
    }

    /** The second `forEach` of `crossover`. */
    static method UnmatchedGenes(second: seq<Gene>, firstIndex: map<nat, nat>) returns (rest: seq<Gene>)
      ensures rest == Unmatched(second, firstIndex)
    {
      rest := [];
      for j := 0 to |second|
        invariant rest == Unmatched(second[..j], firstIndex)
      {
        assert second[..j + 1][..j] == second[..j];
        if second[j].innovation !in firstIndex {
          rest := rest + [second[j]];
        }
      }
      assert second[..|second|] == second;
    }

    /** `makeBaby(species)`: both parents picked by weighted draws, which
        favour the front of the (sorted) species. */
    method MakeBaby(sp: Species, rng: RandomSource) returns (baby: Genome)
      requires rng.Valid() && |sp.genomes| > 0
      modifies rng`used
      ensures var t, s, n := rng.tape, old(rng.used), |sp.genomes|;
              baby == CrossoverOf(sp.genomes[RandomWeightedNumBetween(0, n - 1, t(s))],
                                  sp.genomes[RandomWeightedNumBetween(0, n - 1, t(s + 1))], t, s + 2)
    {
      var r := rng.Next();
      var mum := sp.genomes[RandomWeightedNumBetween(0, |sp.genomes| - 1, r)];
      r := rng.Next();
      var dad := sp.genomes[RandomWeightedNumBetween(0, |sp.genomes| - 1, r)];
      baby := Crossover(mum, dad, rng);
    }

    /** `getCompatibility(a, b)`; `None` is the NaN of two genomes without
        genes. */
    method GetCompatibility(a: Genome, b: Genome) returns (c: Option<real>)
      ensures c == Compatibility(a.genes, b.genes, deltas.disjoint, deltas.weights)
    {
      var disjoint: nat := 0;
      var totalWeight := 0.0;
      var aInnovations := InnovationSet(a.genes);
      var bInnovations := GeneByInnovation(b.genes);
      for i := 0 to |a.genes|
        invariant disjoint == Disjoint(a.genes[..i], bInnovations.Keys)
        invariant totalWeight == WeightGap(a.genes[..i], bInnovations)
      {
        var gene := a.genes[i];
        assert a.genes[..i + 1][..i] == a.genes[..i];
        if gene.innovation in bInnovations {
          totalWeight := totalWeight + Abs(gene.weight - bInnovations[gene.innovation].weight);
        } else {
          disjoint := disjoint + 1;
        }
      }
      assert a.genes[..|a.genes|] == a.genes;
      ghost var fromA := disjoint;
      for j := 0 to |b.genes|
        invariant disjoint == fromA + Disjoint(b.genes[..j], aInnovations)
      {
        assert b.genes[..j + 1][..j] == b.genes[..j];
        if b.genes[j].innovation !in aInnovations {
          disjoint := disjoint + 1;
        }
      }
      assert b.genes[..|b.genes|] == b.genes;
      var n := MaxNat(|a.genes|, |b.genes|);
      if n == 0 {
        c := None;
      } else {
        c := Some(Distance(deltas.disjoint, deltas.weights, disjoint, totalWeight, n));
      }
    }

    /** `isSameSpecies(a, b)`: the distance is below the threshold (a NaN
        distance never is). */
    method IsSameSpecies(a: Genome, b: Genome) returns (same: bool)
      ensures same == SameSpecies(a, b, deltas)
    {
      var c := GetCompatibility(a, b);
      same := c.Some? && c.value < deltas.threshold;
    }
  
    /** The inner `for ... of` of `speciate`: the first species whose first
        genome is close enough to `g`, or `|ss|` when there is none. */
    method FindSpecies(ss: seq<Species>, g: Genome, ghost groups: seq<seq<Genome>>) returns (j: nat)
      requires Holds(ss, groups) && NonEmptyGroups(groups)
      ensures j == FirstFit(groups, g, deltas)
    {
      j := 0;
      while j < |ss|
        invariant j <= |ss|
        invariant forall p :: 0 <= p < j ==> !SameSpecies(g, groups[p][0], deltas)
      {
        var same := IsSameSpecies(g, ss[j].genomes[0]);
        if same {
          break;
        }
        j := j + 1;
      }
    }

    /** `speciate()`: new species, each genome joining the first species
        whose first genome it is close enough to, or founding a new one. */
    method Speciate()
      requires Valid()
      modifies this`species
      ensures Valid()
      ensures Groups(species) == Speciation(genomes, deltas)
      ensures forall k :: 0 <= k < |species| ==> fresh(species[k]) && species[k].averageFitness == Some(0.0)
    {
      species := SpeciesOf(genomes);
    }

    /** The loop of `speciate` over `population`. */
    method SpeciesOf(population: seq<Genome>) returns (ss: seq<Species>)
      ensures DistinctSpecies(ss) && Groups(ss) == Speciation(population, deltas)
      ensures forall k :: 0 <= k < |ss| ==> fresh(ss[k]) && ss[k].averageFitness == Some(0.0)
    {
      ss := [];
      ghost var groups: seq<seq<Genome>> := [];
      for i := 0 to |population|
        invariant DistinctSpecies(ss) && Holds(ss, groups)
        invariant forall k :: 0 <= k < |ss| ==> fresh(ss[k])
        invariant forall k :: 0 <= k < |ss| ==> ss[k].averageFitness == Some(0.0)
        invariant groups == Speciation(population[..i], deltas)
      {
        SpeciationSnoc(population, i, deltas);
        ghost var prev := ss;
        ss, groups := JoinSpecies(ss, population[i], groups);
        forall k | 0 <= k < |ss|
          ensures fresh(ss[k])
        {
          if k < |prev| {
            assert ss[k] == prev[k] && fresh(prev[k]);
          } else {
            assert k == |prev|;
          }
        }
      }
      assert population[..|population|] == population;
      HoldsGroups(ss, groups);
    }

    /** One turn of the `forEach` of `speciate`; `groups` are the genome
        lists of `ss` before the turn. */
    method JoinSpecies(ss: seq<Species>, g: Genome, ghost groups: seq<seq<Genome>>)
      returns (r: seq<Species>, ghost placed: seq<seq<Genome>>)
      requires DistinctSpecies(ss) && Holds(ss, groups) && NonEmptyGroups(groups)
      requires forall k :: 0 <= k < |ss| ==> ss[k].averageFitness == Some(0.0)
      modifies ss
      ensures DistinctSpecies(r) && Holds(r, placed)
      ensures placed == Place(groups, g, deltas)
      ensures |ss| <= |r| <= |ss| + 1 && forall k :: 0 <= k < |ss| ==> r[k] == ss[k]
      ensures |r| > |ss| ==> fresh(r[|ss|])
      ensures forall k :: 0 <= k < |r| ==> r[k].averageFitness == Some(0.0)
    {
      var j := FindSpecies(ss, g, groups);
      r := ss;
      if j < |ss| {
        ss[j].genomes := ss[j].genomes + [g];
        placed := groups[j := groups[j] + [g]];
      } else {
        var sp := new Species();
        sp.genomes := [g];
        r := ss + [sp];
        placed := groups + [[g]];
      }
    }

    /** `cullSpecies(remaining)`: every species culled, the empty ones
        dropped. */
    method CullSpecies(remaining: Option<nat>)
      requires Valid()
      modifies this`species, species
      ensures Valid()
      ensures Groups(species) == CullAll(old(Groups(species)), remaining)
      ensures forall k :: 0 <= k < |species| ==> species[k] in old(species)
    {
      var kept := CullEach(species, remaining);
      species := kept;
    }

    /** The loop of `cullSpecies`: each species culled in turn, and kept
        when it still has a genome. */
    static method CullEach(all: seq<Species>, remaining: Option<nat>) returns (kept: seq<Species>)
      requires DistinctSpecies(all)
      modifies all
      ensures DistinctSpecies(kept) && forall k :: 0 <= k < |kept| ==> kept[k] in all
      ensures Groups(kept) == CullAll(old(Groups(all)), remaining)
    {
      ghost var groups := Groups(all);
      kept := [];
      ghost var culled: seq<seq<Genome>> := [];
      for i := 0 to |all|
        invariant CullingFrom(all, i, kept, culled, groups, remaining)
      {
        kept, culled := CullOne(all, i, kept, remaining, groups, culled);
      }
      assert groups[..|all|] == groups;
      HoldsGroups(kept, culled);
    }

    /** The state of the loop of `cullSpecies` before species `i`: `kept`
        holds the culled lists of the first `i` species that are not empty,
        and the other species are untouched. */
    static ghost predicate CullingFrom(all: seq<Species>, i: nat, kept: seq<Species>, culled: seq<seq<Genome>>,
                                       groups: seq<seq<Genome>>, remaining: Option<nat>)
      reads all, kept
    {
      && i <= |all| == |groups|
      && DistinctSpecies(kept) && Holds(kept, culled)
      && culled == CullAll(groups[..i], remaining)
      && (forall k :: 0 <= k < |kept| ==> kept[k] in all)
      && forall m :: i <= m < |all| ==> all[m] !in kept && all[m].genomes == groups[m]
    }

    /** One turn of the `filter` of `cullSpecies`. */
    static method CullOne(all: seq<Species>, i: nat, kept: seq<Species>, remaining: Option<nat>,
                          ghost groups: seq<seq<Genome>>, ghost culled: seq<seq<Genome>>)
      returns (r: seq<Species>, ghost after: seq<seq<Genome>>)
      requires i < |all| && DistinctSpecies(all)
      requires CullingFrom(all, i, kept, culled, groups, remaining)
      modifies all[i]
      ensures CullingFrom(all, i + 1, r, after, groups, remaining)
    {
      var sp := all[i];
      assert sp !in kept;
      sp.Cull(remaining);
      assert Holds(kept, culled);
      CullingNext(all, i, kept, culled, groups, remaining);
      if |sp.genomes| > 0 {
        r, after := kept + [sp], culled + [sp.genomes];
      } else {
        r, after := kept, culled;
      }
    }

    /** The invariant of the `filter` of `cullSpecies` carries over species
        `i` once it is culled: kept when it still has a genome. */
    static lemma CullingNext(all: seq<Species>, i: nat, kept: seq<Species>, culled: seq<seq<Genome>>,
                             groups: seq<seq<Genome>>, remaining: Option<nat>)
      requires i < |all| == |groups| && DistinctSpecies(all) && all[i] !in kept
      requires DistinctSpecies(kept) && Holds(kept, culled)
      requires culled == CullAll(groups[..i], remaining)
      requires forall k :: 0 <= k < |kept| ==> kept[k] in all
      requires forall m :: i < m < |all| ==> all[m] !in kept && all[m].genomes == groups[m]
      requires all[i].genomes == SortDescending(groups[i])[..KeptCount(remaining, |groups[i]|)]
      ensures var sp := all[i];
              if |sp.genomes| > 0 then CullingFrom(all, i + 1, kept + [sp], culled + [sp.genomes], groups, remaining)
              else CullingFrom(all, i + 1, kept, culled, groups, remaining)
    {
      CullAllStep(groups, i, remaining);
      CulledUntouched(all, i, kept, groups);
      if |all[i].genomes| > 0 {
        CulledKept(all, i, kept, culled);
      }
    }

    /** Appending a species that is not yet kept keeps the kept list
        distinct, inside `all`, and in step with its genome lists. */
    static lemma CulledKept(all: seq<Species>, i: nat, kept: seq<Species>, culled: seq<seq<Genome>>)
      requires i < |all| && all[i] !in kept
      requires DistinctSpecies(kept) && Holds(kept, culled)
      requires forall k :: 0 <= k < |kept| ==> kept[k] in all
      ensures DistinctSpecies(kept + [all[i]]) && Holds(kept + [all[i]], culled + [all[i].genomes])
      ensures forall k :: 0 <= k < |kept| + 1 ==> (kept + [all[i]])[k] in all
    {
    }

    /** The species after `i` are neither kept yet nor culled. */
    static lemma CulledUntouched(all: seq<Species>, i: nat, kept: seq<Species>, groups: seq<seq<Genome>>)
      requires i < |all| == |groups| && DistinctSpecies(all)
      requires forall m :: i < m < |all| ==> all[m] !in kept && all[m].genomes == groups[m]
      ensures forall m :: i + 1 <= m < |all| ==> all[m] !in kept + [all[i]] && all[m].genomes == groups[m]
    {
      forall m | i + 1 <= m < |all|
        ensures all[m] !in kept + [all[i]]
      {
        assert all[m] != all[i];
      }
    }

    /** `calculateSpeciesAvgFitness()`. */
    method CalculateSpeciesAvgFitness()
      requires Valid()
      modifies species
      ensures Groups(species) == old(Groups(species))
      ensures forall k :: 0 <= k < |species| ==> species[k].averageFitness == AverageOf(species[k].genomes)
    {
      for i := 0 to |species|
        invariant forall k :: 0 <= k < |species| ==> species[k].genomes == old(species[k].genomes)
        invariant forall k :: 0 <= k < i ==> species[k].averageFitness == AverageOf(species[k].genomes)
      {
        species[i].CalculateAverageFitness();
      }
    }

    /** The head of `evolve`, up to the species averages: sort the
        population, speciate, cull every species to its better half and
        average each species. */
    method RankSpecies() returns (ghost averages: seq<real>)
      requires Valid() && |genomes| > 0
      modifies this`genomes, this`species
      ensures Valid()
      ensures genomes == SortDescending(old(genomes))
      ensures |species| > 0 && Groups(species) == CullAll(Speciation(genomes, deltas), None)
      ensures averages == EvolveAverages(old(genomes), deltas) && Ranked(averages)
    {
      ghost var population := genomes;
      SortPopulation();
      FormSpecies();
      averages := EvolveAverages(population, deltas);
      RankedAfter(population, averages);
    }

    /** `this.genomes.sort(Helper.compareGenomesDescending)`. */
    method SortPopulation()
      requires Valid()
      modifies this`genomes
      ensures Valid() && genomes == SortDescending(old(genomes))
    {
      SortKeepsShape(genomes, inputNodes, outputNodes);
      genomes := SortDescending(genomes);
    }

    lemma RankedAfter(population: seq<Genome>, averages: seq<real>)
      requires AllShaped(population, inputNodes, outputNodes) && |population| > 0
      requires genomes == SortDescending(population)
      requires Groups(species) == CullAll(Speciation(genomes, deltas), None)
      requires forall k :: 0 <= k < |species| ==> species[k].averageFitness == AverageOf(species[k].genomes)
      requires averages == EvolveAverages(population, deltas)
      ensures |species| > 0 && Ranked(averages)
    {
      EvolveGroupsFacts(population, deltas, inputNodes, outputNodes);
      RankedFrom(CullAll(Speciation(genomes, deltas), None), averages);
    }

    lemma RankedFrom(culled: seq<seq<Genome>>, averages: seq<real>)
      requires Groups(species) == culled && |averages| == |culled|
      requires GroupsShaped(culled, inputNodes, outputNodes) && NonEmptyGroups(culled)
      requires forall k :: 0 <= k < |species| ==> species[k].averageFitness == AverageOf(species[k].genomes)
      requires forall k :: 0 <= k < |culled| ==> AverageOf(culled[k]) == Some(averages[k])
      ensures Ranked(averages)
    {
      forall k | 0 <= k < |species|
        ensures species[k].genomes == culled[k]
      {
      }
    }

    /** `speciate()`, `cullSpecies()` and `calculateSpeciesAvgFitness()`
        in a row. */
    method FormSpecies()
      requires Valid()
      modifies this`species
      ensures Valid()
      ensures Groups(species) == CullAll(Speciation(genomes, deltas), None)
      ensures forall k :: 0 <= k < |species| ==> species[k].averageFitness == AverageOf(species[k].genomes)
    {
      Speciate();
      CullSpecies(None);
      CalculateSpeciesAvgFitness();
    }

    /** The children one species makes in the `forEach` of `evolve`: its
        elite and `childrenToMake - 1` babies when `childrenToMake > 0`. */
    method SpeciesChildren(sp: Species, childrenToMake: int, rng: RandomSource) returns (made: seq<Genome>)
      requires rng.Valid() && |sp.genomes| > 0 && AllShaped(sp.genomes, inputNodes, outputNodes)
      modifies rng`used
      ensures |made| == if childrenToMake > 0 then childrenToMake else 0
      ensures childrenToMake > 0 ==> made[0] == sp.genomes[0]
      ensures AllShaped(made, inputNodes, outputNodes)
    {
      made := [];
      if childrenToMake > 0 {
        made := [sp.genomes[0]];
      }
      var i := 0;
      while i < childrenToMake - 1
        invariant 0 <= i && (childrenToMake > 0 ==> i <= childrenToMake - 1)
        invariant |made| == if childrenToMake > 0 then i + 1 else 0
        invariant childrenToMake > 0 ==> made[0] == sp.genomes[0]
        invariant AllShaped(made, inputNodes, outputNodes)
        decreases childrenToMake - 1 - i
      {
        var baby := MakeBaby(sp, rng);
        made := made + [baby];
        i := i + 1;
      }
    }

    /** The `forEach` of `evolve` over the species: each makes its share of
        the next population, starting with its elite. A zero total stands
        for the NaN and -Infinity shares of the source; a positive average
        over a zero total is excluded, since it never ends. */
    method MakeChildren(total: real, ghost averages: seq<real>, rng: RandomSource) returns (children: seq<Genome>)
      requires rng.Valid() && Ranked(averages)
      requires total == SumReals(averages) && !Hangs(averages)
      modifies rng`used
      ensures |children| == Allocated(averages, total, populationSize) && Ranked(averages)
      ensures AllShaped(children, inputNodes, outputNodes)
      ensures forall k :: 0 <= k < |species| && Contribution(averages[k], total, populationSize) > 0 ==>
                species[k].genomes[0] in children
    {
      children := [];
      for i := 0 to |species|
        invariant |children| == Allocated(averages[..i], total, populationSize)
        invariant AllShaped(children, inputNodes, outputNodes)
        invariant forall k :: 0 <= k < i && Contribution(averages[k], total, populationSize) > 0 ==>
                    species[k].genomes[0] in children
      {
        assert averages[..i + 1][..i] == averages[..i];
        var made := SpeciesChildren(species[i], ChildrenToMake(species[i].averageFitness.value, total, populationSize), rng);
        children := children + made;
      }
      assert averages[..|species|] == averages;
    }

    /** The `while` of `evolve`: babies of uniformly drawn species until the
        population is full. */
    method Backfill(children: seq<Genome>, ghost averages: seq<real>, rng: RandomSource) returns (all: seq<Genome>)
      requires rng.Valid() && |species| > 0 && AllShaped(children, inputNodes, outputNodes)
      requires Ranked(averages)
      modifies rng`used
      ensures |all| == MaxNat(|children|, populationSize) && all[..|children|] == children
      ensures AllShaped(all, inputNodes, outputNodes)
    {
      all := children;
      while |all| < populationSize
        invariant |children| <= |all| <= MaxNat(|children|, populationSize) && all[..|children|] == children
        invariant AllShaped(all, inputNodes, outputNodes)
        decreases populationSize - |all|
      {
        var r := rng.Next();
        var baby := MakeBaby(species[RandomNumBetween(0, |species| - 1, r)], rng);
        all := all + [baby];
      }
    }

    /** `evolve()`: one generation. The new population has the species'
        shares topped up to `populationSize`, and is mutated and speciated
        again. */
    method Evolve(rng: RandomSource)
      requires Valid() && rng.Valid() && |genomes| > 0
      requires inputNodes >= 1 && outputNodes >= 1
      requires !Hangs(EvolveAverages(genomes, deltas))
      modifies this, rng`used
      ensures Valid()
      ensures currentGeneration == old(currentGeneration) + 1
      ensures TableGrows(map[], newInnovations, old(globalInnovationCounter), globalInnovationCounter)
      ensures var averages := EvolveAverages(old(genomes), deltas);
              |genomes| == MaxNat(Allocated(averages, SumReals(averages), populationSize), populationSize)
      ensures var averages := EvolveAverages(old(genomes), deltas);
              SumReals(averages) > 0.0 && (forall k :: 0 <= k < |averages| ==> averages[k] >= 0.0) ==>
                |genomes| == populationSize
      ensures Groups(species) == Speciation(genomes, deltas)
    {
      ghost var averages := EvolveAverages(genomes, deltas);
      currentGeneration := currentGeneration + 1;
      newInnovations := map[];
      ghost var generation := currentGeneration;
      var children := Breed(rng);
      assert currentGeneration == generation && newInnovations == map[];
      Renew(children, rng);
      assert currentGeneration == generation;
      if SumReals(averages) > 0.0 && forall k :: 0 <= k < |averages| ==> averages[k] >= 0.0 {
        AllocationFits(averages, populationSize);
      }
    }

    /** The part of `evolve` that builds the next population. */
    method Breed(rng: RandomSource) returns (children: seq<Genome>)
      requires Valid() && rng.Valid() && |genomes| > 0
      requires !Hangs(EvolveAverages(genomes, deltas))
      modifies this`genomes, this`species, rng`used
      ensures Valid() && AllShaped(children, inputNodes, outputNodes)
      ensures var averages := EvolveAverages(old(genomes), deltas);
              |children| == MaxNat(Allocated(averages, SumReals(averages), populationSize), populationSize)
    {
      ghost var averages := RankSpecies();
      var total := TotalAverage(species);
      RankedTotal(averages);
      children := MakeChildren(total.value, averages, rng);
      children := Backfill(children, averages, rng);
    }

    /** The tail of `evolve`: the children become the population, which is
        mutated and speciated. */
    method Renew(children: seq<Genome>, rng: RandomSource)
      requires Valid() && rng.Valid() && AllShaped(children, inputNodes, outputNodes)
      requires inputNodes >= 1 && outputNodes >= 1
      modifies this`genomes, this`species, this`globalInnovationCounter, this`newInnovations, rng`used
      ensures Valid() && |genomes| == |children|
      ensures TableGrows(old(newInnovations), newInnovations, old(globalInnovationCounter), globalInnovationCounter)
      ensures Groups(species) == Speciation(genomes, deltas)
    {
      genomes := children;
      Mutate(rng);
      Speciate();
    }

    /** `getElite()`: sorts the population and returns its front, the
        fittest genome (`None` for the `undefined` of an empty one). */
    method GetElite() returns (elite: Option<Genome>)
      requires Valid()
      modifies this`genomes
      ensures Valid()
      ensures genomes == SortDescending(old(genomes))
      ensures elite.None? <==> |genomes| == 0
      ensures elite.Some? ==> elite.value in old(genomes) && forall g :: g in old(genomes) ==> elite.value.fitness >= g.fitness
    {
      SortKeepsShape(genomes, inputNodes, outputNodes);
      ghost var before := genomes;
      SortDescendingCorrect(genomes);
      genomes := SortDescending(genomes);
      if |genomes| == 0 {
        elite := None;
      } else {
        elite := Some(genomes[0]);
        assert genomes[0] in multiset(before);
        forall g | g in before
          ensures elite.value.fitness >= g.fitness
        {
          SortedFrontIsFittest(before, g);
        }
      }
    }

    /** `createInitialPopulation()`: `populationSize` fresh genomes with one
        link each, then a round of mutation. */
    method CreateInitialPopulation(rng: RandomSource)
      requires Valid() && rng.Valid()
      requires inputNodes >= 1 && outputNodes >= 1
      modifies this`genomes, this`globalInnovationCounter, this`newInnovations, rng`used
      ensures Valid()
      ensures |genomes| == populationSize
      ensures forall i :: 0 <= i < |genomes| ==> StartsWithLink(genomes[i])
    {
      var population: seq<Genome> := [];
      while |population| < populationSize
        invariant Valid() && |population| <= populationSize
        invariant AllShaped(population, inputNodes, outputNodes)
        invariant forall i :: 0 <= i < |population| ==> StartsWithLink(population[i])
      {
        var blank := CreateGenome(inputNodes, outputNodes, rng);
        ghost var trail := Trail(rng.used, newInnovations, globalInnovationCounter);
        var g := LinkMutate(blank, rng);
        LinkOfFacts(blank, rng.tape, trail);
        population := population + [g];
      }
      genomes := population;
      ghost var before := genomes;
      Mutate(rng);
      forall i | 0 <= i < |genomes|
        ensures StartsWithLink(genomes[i])
      {
        assert Grows(before[i], genomes[i]);
      }
    }
  }
}

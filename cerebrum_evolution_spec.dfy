// Reference definitions for Javascript/Cerebrum/src/Neuroevolution.js: what
// the innovation lookups, the node-split name search, crossover, the
// compatibility distance, speciation and the offspring allocation compute,
// as functions on values, with the lemmas that state their properties. The
// class in CerebrumNeuroevolution runs the source's loops and is proved to
// compute these.

module CerebrumEvolutionSpec {
  import opened CerebrumConnection
  import opened CerebrumGene
  import opened CerebrumNetwork
  import opened CerebrumGenome
  import opened CerebrumHelper
  import opened CerebrumSpecies

  // ---------------------------------------------------------------------
  // The free hidden name of the node-split mutation. The source asks
  // whether some gene's `in` or `out` string *includes* `HIDDEN:<k>`; since
  // "HIDDEN:" only occurs at the start of a hidden node's name, that holds
  // exactly when the digits of `k` are a prefix of the digits of a hidden
  // node the gene names (so HIDDEN:12 also blocks HIDDEN:1).

  /** `s.includes(t)`. */
  predicate Includes(s: string, t: string)
  {
    exists p: nat :: p <= |s| && MatchAt(s, t, p)
  }

  /** `t` occurs in `s` at position `p`. */
  predicate MatchAt(s: string, t: string, p: nat)
  {
    p + |t| <= |s| && s[p..p + |t|] == t
  }

  function HiddenName(k: nat): string
  {
    "HIDDEN:" + Digits(k)
  }

  /** The test of the `while` at Neuroevolution.js line 69. */
  predicate MentionsHidden(genes: seq<Gene>, k: nat)
  {
    exists i :: 0 <= i < |genes| &&
      (Includes(Name(genes[i].from), HiddenName(k)) || Includes(Name(genes[i].to), HiddenName(k)))
  }

  lemma NoH(s: string, p: nat)
    requires IsDigits(s) && p < |s|
    ensures s[p] != 'H'
  {
  }

  /** Where the letter H can occur in a node name. */
  lemma {:induction false} HAt(n: NodeId, p: nat)
    requires p < |Name(n)| && Name(n)[p] == 'H'
    ensures n.Hidden? && p == 0
  {
    if !n.Bias? {
      assert Name(n) == RoleName(n) + ":" + Digits(n.index);
    }
  }

  /** Where the letter P can occur in a node name. */
  lemma {:induction false} PAt(n: NodeId, p: nat)
    requires p < |Name(n)| && Name(n)[p] == 'P'
    ensures (n.Input? && p == 2) || (n.Output? && p == 3)
  {
    if !n.Bias? {
      assert Name(n) == RoleName(n) + ":" + Digits(n.index);
    }
  }

  /** The role tests of the node split: a name includes INPUT exactly when
      it is an input's, and OUTPUT exactly when it is an output's. */
  lemma IncludesRole(n: NodeId)
    ensures Includes(Name(n), "INPUT") <==> n.Input?
    ensures Includes(Name(n), "OUTPUT") <==> n.Output?
  {
    if Includes(Name(n), "INPUT") {
      IncludesInputOnly(n);
    }
    if Includes(Name(n), "OUTPUT") {
      IncludesOutputOnly(n);
    }
    if n.Input? || n.Output? {
      RoleAtStart(n);
    }
  }

  lemma IncludesInputOnly(n: NodeId)
    requires Includes(Name(n), "INPUT")
    ensures n.Input?
  {
    var p: nat :| p <= |Name(n)| && MatchAt(Name(n), "INPUT", p);
    InputMatchAt(n, p);
    RoleAtStart(n);
    assert Name(n)[0..|RoleName(n)|] == RoleName(n);
  }

  lemma InputMatchAt(n: NodeId, p: nat)
    requires MatchAt(Name(n), "INPUT", p)
    ensures (n.Input? && p == 0) || (n.Output? && p == 1)
  {
    assert Name(n)[p + 2] == "INPUT"[2];
    PAt(n, p + 2);
  }

  lemma IncludesOutputOnly(n: NodeId)
    requires Includes(Name(n), "OUTPUT")
    ensures n.Output?
  {
    var s := Name(n);
    var p: nat :| p <= |s| && MatchAt(s, "OUTPUT", p);
    assert s[p + 3] == "OUTPUT"[3];
    PAt(n, p + 3);
  }

  lemma RoleAtStart(n: NodeId)
    requires !n.Bias?
    ensures MatchAt(Name(n), RoleName(n), 0)
  {
    assert Name(n) == RoleName(n) + ":" + Digits(n.index);
  }

  lemma CommonPrefix(a: string, x: string, y: string)
    ensures a + x <= a + y <==> x <= y
  {
    if a + x <= a + y {
      assert forall i :: 0 <= i < |x| ==> x[i] == (a + x)[|a| + i];
    }
  }

  lemma {:induction false} IncludesHiddenNameOnly(n: NodeId, k: nat)
    requires Includes(Name(n), HiddenName(k))
    ensures n.Hidden? && Digits(k) <= Digits(n.index)
  {
    var p: nat :| p <= |Name(n)| && MatchAt(Name(n), HiddenName(k), p);
    HiddenMatchAt(n, k, p);
    PrefixOfMatch(Name(n), HiddenName(k));
    assert Name(n) == "HIDDEN:" + Digits(n.index);
    CommonPrefix("HIDDEN:", Digits(k), Digits(n.index));
  }

  lemma HiddenMatchAt(n: NodeId, k: nat, p: nat)
    requires MatchAt(Name(n), HiddenName(k), p)
    ensures n.Hidden? && p == 0
  {
    assert Name(n)[p] == HiddenName(k)[0];
    HAt(n, p);
  }

  lemma PrefixOfMatch(s: string, t: string)
    requires MatchAt(s, t, 0)
    ensures t <= s
  {
  }

  /** A node name includes HIDDEN:<k> exactly when it is a hidden node whose
      digits start with those of `k`. */
  lemma IncludesHiddenName(n: NodeId, k: nat)
    ensures Includes(Name(n), HiddenName(k)) <==> n.Hidden? && Digits(k) <= Digits(n.index)
  {
    if Includes(Name(n), HiddenName(k)) {
      IncludesHiddenNameOnly(n, k);
    }
    if n.Hidden? && Digits(k) <= Digits(n.index) {
      HiddenNameAtStart(n.index, k);
    }
  }

  lemma HiddenNameAtStart(j: nat, k: nat)
    requires Digits(k) <= Digits(j)
    ensures MatchAt(Name(Hidden(j)), HiddenName(k), 0)
  {
    assert Name(Hidden(j)) == "HIDDEN:" + Digits(j);
    CommonPrefix("HIDDEN:", Digits(k), Digits(j));
  }

  /** The numeric value of a prefix of a numeral is at most the numeral's. */
  lemma {:induction false} PrefixValue(p: string, s: string)
    requires p <= s
    ensures Value(p) <= Value(s)
  {
    if p != s {
      assert p <= s[..|s| - 1];
      PrefixValue(p, s[..|s| - 1]);
    }
  }

  lemma DigitsPrefixBelow(k: nat, j: nat)
    requires Digits(k) <= Digits(j)
    ensures k <= j
  {
    PrefixValue(Digits(k), Digits(j));
    ValueOfDigits(k);
    ValueOfDigits(j);
  }

  function MaxNat(a: nat, b: nat): nat
  {
    if a <= b then b else a
  }

  function HiddenIndex(n: NodeId): nat
  {
    if n.Hidden? then n.index else 0
  }

  /** The largest index of a hidden node the genes name (0 if none). */
  function MaxHiddenIndex(genes: seq<Gene>): (m: nat)
    ensures forall i :: 0 <= i < |genes| ==> HiddenIndex(genes[i].from) <= m && HiddenIndex(genes[i].to) <= m
  {
    if genes == [] then 0
    else MaxNat(MaxNat(HiddenIndex(genes[0].from), HiddenIndex(genes[0].to)), MaxHiddenIndex(genes[1..]))
  }

  /** The name search stops: no index above every named hidden index is
      blocked. */
  lemma MentionedBelowMax(genes: seq<Gene>, k: nat)
    requires MentionsHidden(genes, k)
    ensures k <= MaxHiddenIndex(genes)
  {
    var i :| 0 <= i < |genes| &&
      (Includes(Name(genes[i].from), HiddenName(k)) || Includes(Name(genes[i].to), HiddenName(k)));
    IncludesHiddenName(genes[i].from, k);
    IncludesHiddenName(genes[i].to, k);
    if Includes(Name(genes[i].from), HiddenName(k)) {
      DigitsPrefixBelow(k, genes[i].from.index);
    } else {
      DigitsPrefixBelow(k, genes[i].to.index);
    }
  }

  /** The index the search stops at names a node no gene mentions. */
  lemma UnmentionedIsFresh(genes: seq<Gene>, k: nat)
    requires !MentionsHidden(genes, k)
    ensures forall i :: 0 <= i < |genes| ==> !Names(genes[i], Hidden(k))
  {
    forall i | 0 <= i < |genes|
      ensures !Names(genes[i], Hidden(k))
    {
      IncludesHiddenName(genes[i].from, k);
      IncludesHiddenName(genes[i].to, k);
    }
  }

  /** The index the `while` at Neuroevolution.js line 69 stops at, counting
      up from `k`. */
  function FirstFree(genes: seq<Gene>, k: nat): (r: nat)
    ensures k <= r
    decreases MaxHiddenIndex(genes) + 1 - k
  {
    if MentionsHidden(genes, k) then
      MentionedBelowMax(genes, k);
      FirstFree(genes, k + 1)
    else k
  }

  /** The search stops at the first index from `k` on that no gene mentions. */
  lemma {:induction false} FirstFreeFacts(genes: seq<Gene>, k: nat)
    ensures !MentionsHidden(genes, FirstFree(genes, k))
    ensures forall m :: k <= m < FirstFree(genes, k) ==> MentionsHidden(genes, m)
    decreases MaxHiddenIndex(genes) + 1 - k
  {
    var r := FirstFree(genes, k);
    if MentionsHidden(genes, k) {
      MentionedBelowMax(genes, k);
      FirstFreeFacts(genes, k + 1);
      assert r == FirstFree(genes, k + 1);
      forall m | k <= m < r
        ensures MentionsHidden(genes, m)
      {
        if m != k {
          assert k + 1 <= m < FirstFree(genes, k + 1);
        }
      }
    } else {
      assert r == k;
    }
  }

  /** The node split of gene `i` into HIDDEN:<k>, numbered from `counter`:
      the gene is disabled, and a weight-1 gene into the new node and a gene
      out of it with the old weight are appended. */
  function Split(genome: Genome, i: nat, k: nat, counter: nat): (r: Genome)
    requires i < |genome.genes|
    ensures |r.genes| == |genome.genes| + 2 && Grows(genome, r)
  {
    var gene := genome.genes[i];
    genome.(genes := genome.genes[i := gene.(enabled := false)]
                     + [NewGeneNumbered(gene.from, Hidden(k), 1.0, counter),
                        NewGeneNumbered(Hidden(k), gene.to, gene.weight, counter + 1)])
  }

  /** What the node split of gene `i` does to the genome: an enabled
      INPUT-to-OUTPUT gene is split at the first free hidden name below the
      cap; any other gene leaves the genome alone. */
  function NodeSplitOf(genome: Genome, i: nat, cap: nat, counter: nat): (r: Genome)
    requires i < |genome.genes|
    ensures Grows(genome, r) && |r.genes| <= |genome.genes| + 2
    ensures SplitsAt(genome, i, cap) <==> r != genome
  {
    if SplitsAt(genome, i, cap) then
      var r := Split(genome, i, FirstFree(genome.genes, 0), counter);
      assert |r.genes| != |genome.genes|;
      r
    else genome
  }

  /** Whether the node split of gene `i` happens: the gene is enabled, runs
      from an input to an output, and the first free hidden name is below
      the cap. */
  predicate SplitsAt(genome: Genome, i: nat, cap: nat)
    requires i < |genome.genes|
  {
    var gene := genome.genes[i];
    gene.enabled && gene.from.Input? && gene.to.Output? && FirstFree(genome.genes, 0) < cap
  }

  /** Disabling a gene between two non-hidden nodes leaves the hidden nodes
      of the network alone. */
  lemma {:induction false} DisableKeepsHidden(genes: seq<Gene>, i: nat)
    requires i < |genes| && !genes[i].from.Hidden? && !genes[i].to.Hidden?
    ensures HiddenOf(genes[i := genes[i].(enabled := false)]) == HiddenOf(genes)
  {
    var d := genes[i := genes[i].(enabled := false)];
    var n := |genes| - 1;
    if i < n {
      DisableKeepsHidden(genes[..n], i);
      assert d[..n] == genes[..n][i := genes[i].(enabled := false)];
    } else {
      assert d[..n] == genes[..n];
    }
  }

  /** A split of an input-to-output gene at a name no gene mentions adds
      exactly that hidden node to the network, at the end. */
  lemma SplitAddsHiddenNode(genome: Genome, i: nat, k: nat, counter: nat)
    requires i < |genome.genes| && genome.genes[i].from.Input? && genome.genes[i].to.Output?
    requires !MentionsHidden(genome.genes, k)
    ensures HiddenOf(Split(genome, i, k, counter).genes) == HiddenOf(genome.genes) + [Hidden(k)]
  {
    var gene := genome.genes[i];
    var d := genome.genes[i := gene.(enabled := false)];
    var a := NewGeneNumbered(gene.from, Hidden(k), 1.0, counter);
    var b := NewGeneNumbered(Hidden(k), gene.to, gene.weight, counter + 1);
    DisableKeepsHidden(genome.genes, i);
    UnmentionedIsFresh(genome.genes, k);
    HiddenOfFacts(genome.genes);
    AppendSplitGenes(d, a, b, k);
  }

  lemma AppendSplitGenes(d: seq<Gene>, a: Gene, b: Gene, k: nat)
    requires Hidden(k) !in HiddenOf(d)
    requires a.enabled && a.from.Input? && a.to == Hidden(k)
    requires b.enabled && b.from == Hidden(k) && b.to.Output?
    ensures HiddenOf(d + [a, b]) == HiddenOf(d) + [Hidden(k)]
  {
    var s := d + [a, b];
    var da := d + [a];
    assert s[..|s| - 1] == da && s[|s| - 1] == b;
    assert da[..|da| - 1] == d && da[|da| - 1] == a;
    var h := HiddenOf(d) + [Hidden(k)];
    assert HiddenOf(da) == Visit(Visit(HiddenOf(d), a.from), a.to) == h;
    assert HiddenOf(s) == Visit(Visit(h, b.from), b.to) == h;
  }

  /** The search does not always find the smallest free index: with
      HIDDEN:0 and HIDDEN:12 in use, HIDDEN:1 is free but counts as taken. */
  lemma PrefixBlocksFreeName()
    ensures var genes := [Gene(0, Input(0), Hidden(0), 1.0, true), Gene(0, Hidden(12), Output(0), 1.0, true)];
            MentionsHidden(genes, 1) && forall i :: 0 <= i < |genes| ==> !Names(genes[i], Hidden(1))
  {
    var genes := [Gene(0, Input(0), Hidden(0), 1.0, true), Gene(0, Hidden(12), Output(0), 1.0, true)];
    assert Digits(12) == "12";
    assert Digits(1) == "1";
    IncludesHiddenName(Hidden(12), 1);
    assert Includes(Name(genes[1].from), HiddenName(1));
  }

  /** What mutation does to a genome: its counts, fitness and rank stay, and
      its existing genes keep their endpoints and innovation numbers (only
      their weights and enabled flags change); new genes go at the end. */
  predicate Grows(before: Genome, after: Genome)
  {
    && after.inputNodes == before.inputNodes && after.outputNodes == before.outputNodes
    && after.fitness == before.fitness && after.globalRank == before.globalRank
    && |before.genes| <= |after.genes|
    && forall j :: 0 <= j < |before.genes| ==>
         after.genes[j].innovation == before.genes[j].innovation &&
         after.genes[j].from == before.genes[j].from && after.genes[j].to == before.genes[j].to
  }

  lemma GrowsTransitive(a: Genome, b: Genome, c: Genome)
    requires Grows(a, b) && Grows(b, c)
    ensures Grows(a, c)
  {
  }

  // ---------------------------------------------------------------------
  // Innovation lookups. Both `reduce` at lines 148-156 and the `Map` at line
  // 257 visit the genes in order, so a later gene with the same innovation
  // number overwrites an earlier one.

  /** `{ [gene.innovation]: index }`. */
  function IndexByInnovation(genes: seq<Gene>): map<nat, nat>
  {
    if genes == [] then map[]
    else IndexByInnovation(genes[..|genes| - 1])[genes[|genes| - 1].innovation := |genes| - 1]
  }

  /** `new Map(genes.map((gene) => [gene.innovation, gene]))`. */
  function GeneByInnovation(genes: seq<Gene>): map<nat, Gene>
  {
    if genes == [] then map[]
    else GeneByInnovation(genes[..|genes| - 1])[genes[|genes| - 1].innovation := genes[|genes| - 1]]
  }

  /** `new Set(genes.map((gene) => gene.innovation))`. */
  function InnovationSet(genes: seq<Gene>): set<nat>
  {
    set i | 0 <= i < |genes| :: genes[i].innovation
  }

  /** An innovation is indexed exactly when some gene carries it, and the
      index is that of the last such gene. */
  lemma {:induction false} IndexByInnovationFacts(genes: seq<Gene>, k: nat)
    ensures k in IndexByInnovation(genes) <==> k in InnovationSet(genes)
    ensures k in IndexByInnovation(genes) ==>
              var i := IndexByInnovation(genes)[k];
              i < |genes| && genes[i].innovation == k &&
              forall j :: i < j < |genes| ==> genes[j].innovation != k
  {
    if genes != [] {
      var p := genes[..|genes| - 1];
      IndexByInnovationFacts(p, k);
      assert forall i :: 0 <= i < |p| ==> p[i] == genes[i];
      assert InnovationSet(genes) == InnovationSet(p) + {genes[|genes| - 1].innovation};
    }
  }

  /** The `Map` holds the gene the index points at. */
  lemma {:induction false} GeneByInnovationIsIndexed(genes: seq<Gene>)
    ensures GeneByInnovation(genes).Keys == IndexByInnovation(genes).Keys
    ensures forall k :: k in GeneByInnovation(genes) ==>
              IndexByInnovation(genes)[k] < |genes| && GeneByInnovation(genes)[k] == genes[IndexByInnovation(genes)[k]]
  {
    if genes != [] {
      var p := genes[..|genes| - 1];
      GeneByInnovationIsIndexed(p);
      forall k | k in GeneByInnovation(p)
        ensures IndexByInnovation(p)[k] < |p| && p[IndexByInnovation(p)[k]] == genes[IndexByInnovation(p)[k]]
      {
      }
    }
  }

  // ---------------------------------------------------------------------
  // Crossover.

  /** The second parent's genes whose innovation the first parent lacks. */
  function Unmatched(genes: seq<Gene>, taken: map<nat, nat>): (r: seq<Gene>)
    ensures |r| <= |genes|
  {
    if genes == [] then []
    else
      var g := genes[|genes| - 1];
      Unmatched(genes[..|genes| - 1], taken) + (if g.innovation in taken then [] else [g])
  }

  /** What `crossover(first, second)` returns: a new genome with the first
      parent's counts whose genes are, position by position, the first
      parent's gene or, at an innovation the second parent shares, the second
      parent's last gene with it; then the second parent's unmatched genes. */
  predicate IsCrossover(first: Genome, second: Genome, child: Genome)
  {
    var other := IndexByInnovation(second.genes);
    var n := |first.genes|;
    && child.inputNodes == first.inputNodes && child.outputNodes == first.outputNodes
    && child.fitness == -MaxValue && child.globalRank == 0
    && |child.genes| == n + |Unmatched(second.genes, IndexByInnovation(first.genes))|
    && (forall i :: 0 <= i < n ==>
          if first.genes[i].innovation in other && other[first.genes[i].innovation] < |second.genes|
          then child.genes[i] == first.genes[i] || child.genes[i] == second.genes[other[first.genes[i].innovation]]
          else child.genes[i] == first.genes[i])
    && child.genes[n..] == Unmatched(second.genes, IndexByInnovation(first.genes))
  }

  /** The genes whose innovation `index` holds: the draws crossover takes. */
  function SharedCount(genes: seq<Gene>, index: map<nat, nat>): nat
  {
    if genes == [] then 0
    else SharedCount(genes[..|genes| - 1], index) + (if genes[|genes| - 1].innovation in index then 1 else 0)
  }

  /** The genes crossover takes at the first parent's positions, for the
      draws `draws(s)`, `draws(s + 1)`, ...: where `other` (the second
      parent's innovation index) holds the innovation, a draw below 0.5 keeps
      the first parent's gene and any other draw takes the second parent's. */
  function CrossFront(genes: seq<Gene>, second: seq<Gene>, other: map<nat, nat>, draws: nat -> real, s: nat): (r: seq<Gene>)
    ensures |r| == |genes|
  {
    if genes == [] then []
    else
      var p := genes[..|genes| - 1];
      var g := genes[|genes| - 1];
      CrossFront(p, second, other, draws, s) +
        [if g.innovation in other && other[g.innovation] < |second| && draws(s + SharedCount(p, other)) >= 0.5
         then second[other[g.innovation]] else g]
  }

  lemma CrossFrontStep(genes: seq<Gene>, i: nat, second: seq<Gene>, other: map<nat, nat>, draws: nat -> real, s: nat)
    requires i < |genes|
    ensures var g := genes[i];
            && CrossFront(genes[..i + 1], second, other, draws, s) == CrossFront(genes[..i], second, other, draws, s) +
                 [if g.innovation in other && other[g.innovation] < |second| && draws(s + SharedCount(genes[..i], other)) >= 0.5
                  then second[other[g.innovation]] else g]
            && SharedCount(genes[..i + 1], other) == SharedCount(genes[..i], other) + (if g.innovation in other then 1 else 0)
  {
    assert genes[..i + 1][..i] == genes[..i];
  }

  /** `crossover(first, second)` for the draws from `s` on: draw `s` is the
      `randomIdentifier` of the child's `new Genome`, which nothing reads,
      and the shared innovations draw from `s + 1` on. */
  function CrossoverOf(first: Genome, second: Genome, draws: nat -> real, s: nat): Genome
  {
    NewGenome(first.inputNodes, first.outputNodes).(genes :=
      CrossFront(first.genes, second.genes, IndexByInnovation(second.genes), draws, s + 1)
      + Unmatched(second.genes, IndexByInnovation(first.genes)))
  }

  lemma {:induction false} CrossFrontChoices(genes: seq<Gene>, second: seq<Gene>, other: map<nat, nat>, draws: nat -> real, s: nat)
    ensures forall j :: 0 <= j < |genes| ==>
              if genes[j].innovation in other && other[genes[j].innovation] < |second|
              then CrossFront(genes, second, other, draws, s)[j] == genes[j] ||
                   CrossFront(genes, second, other, draws, s)[j] == second[other[genes[j].innovation]]
              else CrossFront(genes, second, other, draws, s)[j] == genes[j]
  {
    if genes != [] {
      var p := genes[..|genes| - 1];
      CrossFrontChoices(p, second, other, draws, s);
      assert forall j :: 0 <= j < |p| ==> p[j] == genes[j];
    }
  }

  /** Whatever the draws, crossover's child is one the description of
      `IsCrossover` allows. */
  lemma CrossoverOfIsCrossover(first: Genome, second: Genome, draws: nat -> real, s: nat)
    ensures IsCrossover(first, second, CrossoverOf(first, second, draws, s))
  {
    CrossFrontChoices(first.genes, second.genes, IndexByInnovation(second.genes), draws, s + 1);
  }

  /** Every child gene carries the innovation number its position says: the
      first parent's at the first parent's positions. */
  lemma CrossoverKeepsInnovations(first: Genome, second: Genome, child: Genome, i: nat)
    requires IsCrossover(first, second, child) && i < |first.genes|
    ensures child.genes[i].innovation == first.genes[i].innovation
  {
    var k := first.genes[i].innovation;
    IndexByInnovationFacts(second.genes, k);
  }

  /** No child gene after the first parent's carries an innovation the first
      parent has. */
  lemma {:induction false} UnmatchedAreNew(genes: seq<Gene>, taken: map<nat, nat>, j: nat)
    requires j < |Unmatched(genes, taken)|
    ensures Unmatched(genes, taken)[j].innovation !in taken
    ensures Unmatched(genes, taken)[j] in genes
  {
    var p := genes[..|genes| - 1];
    if j < |Unmatched(p, taken)| {
      UnmatchedAreNew(p, taken, j);
    }
  }

  // ---------------------------------------------------------------------
  // The compatibility distance.

  function Abs(x: real): real
  {
    if x < 0.0 then -x else x
  }

  /** The genes whose innovation is not in `others` (the `disjoint++`s). */
  function Disjoint(genes: seq<Gene>, others: set<nat>): nat
  {
    if genes == [] then 0
    else Disjoint(genes[..|genes| - 1], others) + (if genes[|genes| - 1].innovation in others then 0 else 1)
  }

  /** The `totalWeight` sum: for each gene whose innovation `others` maps,
      the weight difference to the mapped gene. */
  function WeightGap(genes: seq<Gene>, others: map<nat, Gene>): real
  {
    if genes == [] then 0.0
    else
      var g := genes[|genes| - 1];
      WeightGap(genes[..|genes| - 1], others) + (if g.innovation in others then Abs(g.weight - others[g.innovation].weight) else 0.0)
  }

  /** `getCompatibility(a, b)`; `None` is the NaN of two empty genomes. */
  function Compatibility(a: seq<Gene>, b: seq<Gene>, deltaDisjoint: real, deltaWeights: real): Option<real>
  {
    var n := MaxNat(|a|, |b|);
    if n == 0 then None
    else
      var disjoint := Disjoint(a, GeneByInnovation(b).Keys) + Disjoint(b, InnovationSet(a));
      Some(Distance(deltaDisjoint, deltaWeights, disjoint, WeightGap(a, GeneByInnovation(b)), n))
  }

  /** The return expression of `getCompatibility`, for `n > 0` genes. */
  function Distance(deltaDisjoint: real, deltaWeights: real, disjoint: nat, totalWeight: real, n: nat): real
    requires n > 0
  {
    (deltaDisjoint * (disjoint as real)) / (n as real) + (deltaWeights * totalWeight) / (n as real)
  }

  predicate UniqueInnovations(genes: seq<Gene>)
  {
    forall i, j :: 0 <= i < j < |genes| ==> genes[i].innovation != genes[j].innovation
  }

  /** The weight gap of `x` against every gene of `genes`. */
  function RowSum(x: Gene, genes: seq<Gene>): real
  {
    if genes == [] then 0.0
    else
      var g := genes[|genes| - 1];
      RowSum(x, genes[..|genes| - 1]) + (if g.innovation == x.innovation then Abs(x.weight - g.weight) else 0.0)
  }

  /** The weight gap over all pairs of genes with equal innovations. */
  function PairSum(a: seq<Gene>, b: seq<Gene>): real
  {
    if a == [] then 0.0 else PairSum(a[..|a| - 1], b) + RowSum(a[|a| - 1], b)
  }

  /** With unique innovations, a gene's row is its gap to the one gene of
      the same innovation, if any. */
  lemma {:induction false} RowSumUnique(x: Gene, genes: seq<Gene>)
    requires UniqueInnovations(genes)
    ensures RowSum(x, genes) ==
              if x.innovation in GeneByInnovation(genes) then Abs(x.weight - GeneByInnovation(genes)[x.innovation].weight) else 0.0
  {
    if genes != [] {
      var p := genes[..|genes| - 1];
      var g := genes[|genes| - 1];
      assert UniqueInnovations(p);
      RowSumUnique(x, p);
      GeneKeys(p);
      assert g.innovation !in InnovationSet(p);
    }
  }

  /** The `Map`'s keys are the genome's innovation numbers. */
  lemma {:induction false} GeneKeys(genes: seq<Gene>)
    ensures GeneByInnovation(genes).Keys == InnovationSet(genes)
  {
    if genes != [] {
      var p := genes[..|genes| - 1];
      GeneKeys(p);
      assert forall i :: 0 <= i < |p| ==> p[i] == genes[i];
      assert InnovationSet(genes) == InnovationSet(p) + {genes[|genes| - 1].innovation};
    }
  }

  lemma {:induction false} WeightGapIsPairSum(a: seq<Gene>, b: seq<Gene>)
    requires UniqueInnovations(b)
    ensures WeightGap(a, GeneByInnovation(b)) == PairSum(a, b)
  {
    if a != [] {
      WeightGapIsPairSum(a[..|a| - 1], b);
      RowSumUnique(a[|a| - 1], b);
    }
  }

  /** Adding a gene at the end of the second argument adds one column. */
  lemma {:induction false} PairSumSnoc(a: seq<Gene>, b: seq<Gene>, y: Gene)
    ensures PairSum(a, b + [y]) == PairSum(a, b) + RowSum(y, a)
  {
    if a != [] {
      var p := a[..|a| - 1];
      var x := a[|a| - 1];
      PairSumSnoc(p, b, y);
      assert (b + [y])[..|b + [y]| - 1] == b;
      assert Abs(x.weight - y.weight) == Abs(y.weight - x.weight);
    }
  }

  lemma {:induction false} PairSumSymmetric(a: seq<Gene>, b: seq<Gene>)
    ensures PairSum(a, b) == PairSum(b, a)
    decreases |a| + |b|
  {
    if a == [] {
      PairSumEmpty(b);
    } else {
      var p := a[..|a| - 1];
      var x := a[|a| - 1];
      PairSumSymmetric(p, b);
      PairSumSnoc(b, p, x);
      assert p + [x] == a;
    }
  }

  lemma {:induction false} PairSumEmpty(b: seq<Gene>)
    ensures PairSum(b, []) == 0.0
  {
    if b != [] {
      PairSumEmpty(b[..|b| - 1]);
    }
  }

  /** `getCompatibility` is symmetric when no genome repeats an innovation. */
  lemma CompatibilitySymmetric(a: seq<Gene>, b: seq<Gene>, deltaDisjoint: real, deltaWeights: real)
    requires UniqueInnovations(a) && UniqueInnovations(b)
    ensures Compatibility(a, b, deltaDisjoint, deltaWeights) == Compatibility(b, a, deltaDisjoint, deltaWeights)
  {
    GeneKeys(a);
    GeneKeys(b);
    WeightGapIsPairSum(a, b);
    WeightGapIsPairSum(b, a);
    PairSumSymmetric(a, b);
    assert WeightGap(a, GeneByInnovation(b)) == WeightGap(b, GeneByInnovation(a));
    assert Disjoint(a, GeneByInnovation(b).Keys) + Disjoint(b, InnovationSet(a))
        == Disjoint(b, GeneByInnovation(a).Keys) + Disjoint(a, InnovationSet(b));
    assert MaxNat(|a|, |b|) == MaxNat(|b|, |a|);
  }

  // ---------------------------------------------------------------------
  // Speciation: first fit against each species' first genome.

  /** The three distance coefficients of a `Neuroevolution`. */
  datatype Deltas = Deltas(disjoint: real, weights: real, threshold: real)

  /** `isSameSpecies(a, b)`: a NaN distance is never below the threshold. */
  predicate SameSpecies(a: Genome, b: Genome, d: Deltas)
  {
    var c := Compatibility(a.genes, b.genes, d.disjoint, d.weights);
    c.Some? && c.value < d.threshold
  }

  predicate NonEmptyGroups(groups: seq<seq<Genome>>)
  {
    forall i :: 0 <= i < |groups| ==> |groups[i]| > 0
  }

  /** The species the genome joins: the first whose head it matches, or a
      new one at the end. */
  function FirstFit(groups: seq<seq<Genome>>, g: Genome, d: Deltas): (i: nat)
    requires NonEmptyGroups(groups)
    ensures i <= |groups|
    ensures i < |groups| ==> SameSpecies(g, groups[i][0], d)
    ensures forall p :: 0 <= p < i ==> !SameSpecies(g, groups[p][0], d)
  {
    if groups == [] then 0
    else if SameSpecies(g, groups[0][0], d) then 0
    else 1 + FirstFit(groups[1..], g, d)
  }

  /** One turn of the `forEach` of `speciate`. */
  function Place(groups: seq<seq<Genome>>, g: Genome, d: Deltas): (r: seq<seq<Genome>>)
    requires NonEmptyGroups(groups)
    ensures NonEmptyGroups(r) && |groups| <= |r| && |r| > 0
  {
    var i := FirstFit(groups, g, d);
    if i < |groups| then groups[i := groups[i] + [g]] else groups + [[g]]
  }

  /** The species `speciate` forms from `genomes`, as genome lists. */
  function Speciation(genomes: seq<Genome>, d: Deltas): (groups: seq<seq<Genome>>)
    ensures NonEmptyGroups(groups)
    ensures |genomes| > 0 ==> |groups| > 0
  {
    if genomes == [] then []
    else Place(Speciation(genomes[..|genomes| - 1], d), genomes[|genomes| - 1], d)
  }

  lemma SpeciationSnoc(genomes: seq<Genome>, i: nat, d: Deltas)
    requires i < |genomes|
    ensures Speciation(genomes[..i + 1], d) == Place(Speciation(genomes[..i], d), genomes[i], d)
  {
    assert genomes[..i + 1][..i] == genomes[..i];
  }

  function Flatten(groups: seq<seq<Genome>>): seq<Genome>
  {
    if groups == [] then [] else groups[0] + Flatten(groups[1..])
  }

  lemma {:induction false} FlattenUpdate(groups: seq<seq<Genome>>, i: nat, g: Genome)
    requires i < |groups|
    ensures multiset(Flatten(groups[i := groups[i] + [g]])) == multiset(Flatten(groups)) + multiset{g}
  {
    var u := groups[i := groups[i] + [g]];
    if i > 0 {
      FlattenUpdate(groups[1..], i - 1, g);
      assert u[1..] == groups[1..][i - 1 := groups[1..][i - 1] + [g]];
      assert Flatten(u) == groups[0] + Flatten(u[1..]);
    } else {
      assert u[1..] == groups[1..];
      assert Flatten(u) == (groups[0] + [g]) + Flatten(groups[1..]);
    }
  }

  lemma {:induction false} FlattenSnoc(groups: seq<seq<Genome>>, x: seq<Genome>)
    ensures Flatten(groups + [x]) == Flatten(groups) + x
  {
    if groups != [] {
      FlattenSnoc(groups[1..], x);
      assert (groups + [x])[1..] == groups[1..] + [x];
    }
  }

  /** Every genome lands in exactly one species: the species' lists together
      hold each genome as often as the population does, so total membership
      is the population size. */
  lemma {:induction false} SpeciationPartition(genomes: seq<Genome>, d: Deltas)
    ensures multiset(Flatten(Speciation(genomes, d))) == multiset(genomes)
    ensures |Flatten(Speciation(genomes, d))| == |genomes|
  {
    if genomes != [] {
      var p := genomes[..|genomes| - 1];
      var g := genomes[|genomes| - 1];
      var groups := Speciation(p, d);
      SpeciationPartition(p, d);
      PlaceAdds(groups, g, d);
      assert genomes == p + [g];
      assert |Flatten(Speciation(genomes, d))| == |multiset(Flatten(Speciation(genomes, d)))|;
    }
  }

  lemma PlaceAdds(groups: seq<seq<Genome>>, g: Genome, d: Deltas)
    requires NonEmptyGroups(groups)
    ensures multiset(Flatten(Place(groups, g, d))) == multiset(Flatten(groups)) + multiset{g}
  {
    var i := FirstFit(groups, g, d);
    if i < |groups| {
      FlattenUpdate(groups, i, g);
    } else {
      FlattenSnoc(groups, [g]);
    }
  }

  /** First fit: a genome matches the first genome of its own species (unless
      it is that genome) and of no earlier species. */
  predicate FirstFitPlaced(groups: seq<seq<Genome>>, d: Deltas)
    requires NonEmptyGroups(groups)
  {
    forall i, m :: 0 <= i < |groups| && 0 <= m < |groups[i]| ==>
      (m > 0 ==> SameSpecies(groups[i][m], groups[i][0], d)) &&
      forall p :: 0 <= p < i ==> !SameSpecies(groups[i][m], groups[p][0], d)
  }

  lemma {:induction false} SpeciationFirstFit(genomes: seq<Genome>, d: Deltas)
    ensures FirstFitPlaced(Speciation(genomes, d), d)
  {
    if genomes != [] {
      var p := genomes[..|genomes| - 1];
      SpeciationFirstFit(p, d);
    }
  }

  // ---------------------------------------------------------------------
  // Culling and offspring allocation in `evolve`.

  /** `cullSpecies(remaining)`: each species culled, empty ones dropped. */
  function CullAll(groups: seq<seq<Genome>>, remaining: Option<nat>): (r: seq<seq<Genome>>)
    ensures NonEmptyGroups(r)
    ensures |r| <= |groups|
  {
    if groups == [] then []
    else
      var g := groups[|groups| - 1];
      var kept := SortDescending(g)[..KeptCount(remaining, |g|)];
      CullAll(groups[..|groups| - 1], remaining) + (if |kept| > 0 then [kept] else [])
  }

  /** `CullAll` extended by one more group. */
  lemma CullAllStep(groups: seq<seq<Genome>>, i: nat, remaining: Option<nat>)
    requires i < |groups|
    ensures var kept := SortDescending(groups[i])[..KeptCount(remaining, |groups[i]|)];
            CullAll(groups[..i + 1], remaining) == CullAll(groups[..i], remaining) + (if |kept| > 0 then [kept] else [])
  {
    assert groups[..i + 1][..i] == groups[..i];
  }

  /** With the default `remaining`, culling drops no species. */
  lemma {:induction false} DefaultCullKeepsSpecies(groups: seq<seq<Genome>>)
    requires NonEmptyGroups(groups)
    ensures |CullAll(groups, None)| == |groups|
  {
    if groups != [] {
      DefaultCullKeepsSpecies(groups[..|groups| - 1]);
    }
  }

  /** The average fitness of each (non-empty) species. */
  function Averages(groups: seq<seq<Genome>>): (r: seq<real>)
    requires NonEmptyGroups(groups)
    ensures |r| == |groups|
  {
    if groups == [] then []
    else Averages(groups[..|groups| - 1]) + [TotalFitness(groups[|groups| - 1]) / (|groups[|groups| - 1]| as real)]
  }

  function SumReals(xs: seq<real>): real
  {
    if xs == [] then 0.0 else SumReals(xs[..|xs| - 1]) + xs[|xs| - 1]
  }

  /** A positive average over a zero total makes `childrenToMake` infinite and
      the `for` loop of `evolve` never ends. */
  predicate Hangs(averages: seq<real>)
  {
    SumReals(averages) == 0.0 && exists i :: 0 <= i < |averages| && averages[i] > 0.0
  }

  /** `Math.floor((averageFitness / total) * populationSize)`. Over a zero total
      the source gets NaN or -Infinity, and either makes no child; both are 0
      here. */
  function ChildrenToMake(average: real, total: real, populationSize: nat): int
  {
    if total == 0.0 then 0 else ((average / total) * (populationSize as real)).Floor
  }

  /** The genomes a species contributes before the backfill: its elite and
      `childrenToMake - 1` babies when `childrenToMake > 0`, else none. */
  function Contribution(average: real, total: real, populationSize: nat): nat
  {
    var k := ChildrenToMake(average, total, populationSize);
    if k > 0 then k else 0
  }

  function Allocated(averages: seq<real>, total: real, populationSize: nat): nat
  {
    if averages == [] then 0
    else Allocated(averages[..|averages| - 1], total, populationSize)
         + Contribution(averages[|averages| - 1], total, populationSize)
  }

  lemma ContributionBelowShare(average: real, total: real, populationSize: nat)
    requires total > 0.0 && average >= 0.0
    ensures (Contribution(average, total, populationSize) as real) <= (average / total) * (populationSize as real)
  {
    var x := (average / total) * (populationSize as real);
    assert x >= 0.0 by {
      assert average / total >= 0.0;
    }
  }

  lemma {:induction false} AllocatedBelowShares(averages: seq<real>, total: real, populationSize: nat)
    requires total > 0.0
    requires forall i :: 0 <= i < |averages| ==> averages[i] >= 0.0
    ensures (Allocated(averages, total, populationSize) as real) <= (SumReals(averages) / total) * (populationSize as real)
  {
    if averages != [] {
      var p := averages[..|averages| - 1];
      var x := averages[|averages| - 1];
      AllocatedBelowShares(p, total, populationSize);
      ContributionBelowShare(x, total, populationSize);
      SharesAdd(SumReals(p), x, total, populationSize as real);
    }
  }

  lemma SharesAdd(a: real, b: real, total: real, n: real)
    requires total > 0.0
    ensures (a / total) * n + (b / total) * n == ((a + b) / total) * n
  {
    assert a / total + b / total == (a + b) / total;
  }

  /** With non-negative averages and a positive total, the species together
      make at most `populationSize` genomes, so the backfill `while` tops the
      population up to exactly `populationSize`. */
  lemma AllocationFits(averages: seq<real>, populationSize: nat)
    requires SumReals(averages) > 0.0
    requires forall i :: 0 <= i < |averages| ==> averages[i] >= 0.0
    ensures Allocated(averages, SumReals(averages), populationSize) <= populationSize
  {
    var total := SumReals(averages);
    AllocatedBelowShares(averages, total, populationSize);
    assert total / total == 1.0;
  }

  // ---------------------------------------------------------------------
  // Input and output counts through a generation.

  /** Every genome has the population's input and output counts. */
  predicate AllShaped(genomes: seq<Genome>, inputNodes: nat, outputNodes: nat)
  {
    forall i :: 0 <= i < |genomes| ==> genomes[i].inputNodes == inputNodes && genomes[i].outputNodes == outputNodes
  }

  predicate GroupsShaped(groups: seq<seq<Genome>>, inputNodes: nat, outputNodes: nat)
  {
    forall k :: 0 <= k < |groups| ==> AllShaped(groups[k], inputNodes, outputNodes)
  }

  lemma SortKeepsShape(genomes: seq<Genome>, inputNodes: nat, outputNodes: nat)
    requires AllShaped(genomes, inputNodes, outputNodes)
    ensures AllShaped(SortDescending(genomes), inputNodes, outputNodes)
  {
    var r := SortDescending(genomes);
    SortDescendingCorrect(genomes);
    forall i | 0 <= i < |r|
      ensures r[i].inputNodes == inputNodes && r[i].outputNodes == outputNodes
    {
      assert r[i] in multiset(genomes);
    }
  }

  lemma {:induction false} SpeciationShaped(genomes: seq<Genome>, d: Deltas, inputNodes: nat, outputNodes: nat)
    requires AllShaped(genomes, inputNodes, outputNodes)
    ensures GroupsShaped(Speciation(genomes, d), inputNodes, outputNodes)
  {
    if genomes != [] {
      SpeciationShaped(genomes[..|genomes| - 1], d, inputNodes, outputNodes);
    }
  }

  lemma {:induction false} CullAllShaped(groups: seq<seq<Genome>>, remaining: Option<nat>, inputNodes: nat, outputNodes: nat)
    requires GroupsShaped(groups, inputNodes, outputNodes)
    ensures GroupsShaped(CullAll(groups, remaining), inputNodes, outputNodes)
  {
    if groups != [] {
      CullAllShaped(groups[..|groups| - 1], remaining, inputNodes, outputNodes);
      SortKeepsShape(groups[|groups| - 1], inputNodes, outputNodes);
    }
  }

  /** The average of species `k`. */
  lemma {:induction false} AveragesAt(groups: seq<seq<Genome>>, k: nat)
    requires NonEmptyGroups(groups) && k < |groups|
    ensures Averages(groups)[k] == TotalFitness(groups[k]) / (|groups[k]| as real)
  {
    if k < |groups| - 1 {
      AveragesAt(groups[..|groups| - 1], k);
    }
  }

  /** The species averages `evolve` computes from the population. */
  function EvolveAverages(genomes: seq<Genome>, d: Deltas): seq<real>
  {
    Averages(CullAll(Speciation(SortDescending(genomes), d), None))
  }

  /** What `evolve` knows of its culled species: there is one when the
      population is not empty, each keeps the population's shape, and the
      averages are theirs. */
  lemma EvolveGroupsFacts(genomes: seq<Genome>, d: Deltas, inputNodes: nat, outputNodes: nat)
    requires AllShaped(genomes, inputNodes, outputNodes)
    ensures var culled := CullAll(Speciation(SortDescending(genomes), d), None);
            && GroupsShaped(culled, inputNodes, outputNodes)
            && (|genomes| > 0 ==> |culled| > 0)
            && |EvolveAverages(genomes, d)| == |culled|
            && forall k :: 0 <= k < |culled| ==> AverageOf(culled[k]) == Some(EvolveAverages(genomes, d)[k])
  {
    var sorted := SortDescending(genomes);
    var groups := Speciation(sorted, d);
    var culled := CullAll(groups, None);
    SortKeepsShape(genomes, inputNodes, outputNodes);
    SpeciationShaped(sorted, d, inputNodes, outputNodes);
    CullAllShaped(groups, None, inputNodes, outputNodes);
    DefaultCullKeepsSpecies(groups);
    forall k | 0 <= k < |culled|
      ensures AverageOf(culled[k]) == Some(EvolveAverages(genomes, d)[k])
    {
      AveragesAt(culled, k);
    }
  }
}

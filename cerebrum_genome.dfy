// Model of Javascript/Cerebrum/src/Genome.js: a genome is a list of connection
// genes plus the input and output counts, and `getNetwork` turns it into a
// phenotype `Network`.
//
// Genomes are values here. In the source no genome or gene object is shared
// between two genomes (crossover copies genes, each species pushes a distinct
// elite), so updating a genome in place and replacing it by its updated value
// are the same thing.

module CerebrumGenome {
  import opened CerebrumConnection
  import opened CerebrumGene
  import opened CerebrumNetwork

  /** `Number.MAX_VALUE`, the largest finite double, 2^1024 - 2^971. */
  const MaxValue: real := 179769313486231570814527423731704356798070567525844996598917476803157260780028538760589558632766878171540458953514382464234321326889464182768467546703537516986049910576551282076245490090389328944075868508455133942304583236903222948165808559332123348274797826204144723168738177180919299881250404026184124858368.0

  /** A genome. The source's `randomIdentifier` is a `Math.random()` value that
      nothing reads; it is not stored here, but its draw is taken wherever the
      evolution creates a genome (`Neuroevolution.CreateGenome`). */
  datatype Genome = Genome(inputNodes: nat, outputNodes: nat, genes: seq<Gene>, fitness: real, globalRank: int)

  /** `new Genome(inputNodes, outputNodes)`. */
  function NewGenome(inputNodes: nat, outputNodes: nat): (g: Genome)
    ensures g.inputNodes == inputNodes && g.outputNodes == outputNodes
    ensures g.genes == [] && g.fitness == -MaxValue && g.globalRank == 0
  {
    Genome(inputNodes, outputNodes, [], -MaxValue, 0)
  }

  /** Whether `genes` has a gene from `inId` to `outId` (enabled or not). */
  function HasEdge(genes: seq<Gene>, inId: NodeId, outId: NodeId): (b: bool)
    ensures b <==> exists i :: 0 <= i < |genes| && genes[i].from == inId && genes[i].to == outId
  {
    if genes == [] then false
    else
      var rest := HasEdge(genes[1..], inId, outId);
      assert forall i :: 0 <= i < |genes[1..]| ==> genes[1..][i] == genes[i + 1];
      (genes[0].from == inId && genes[0].to == outId) || rest
  }

  /** `containsGene(inID, outID)`. */
  function ContainsGene(g: Genome, inId: NodeId, outId: NodeId): (b: bool)
    ensures b <==> exists i :: 0 <= i < |g.genes| && g.genes[i].from == inId && g.genes[i].to == outId
  {
    HasEdge(g.genes, inId, outId)
  }

  // ---------------------------------------------------------------------
  // What `getNetwork` builds from the first genes of a genome. Each of these
  // is defined on a prefix and extended by the prefix's last gene, in the
  // order the `forEach` visits the genes.

  /** The hidden list after a node is met: a HIDDEN node not yet listed is
      appended. */
  function Visit(hidden: seq<NodeId>, n: NodeId): seq<NodeId>
  {
    if n.Hidden? && n !in hidden then hidden + [n] else hidden
  }

  /** The hidden nodes the enabled genes name, in order of first appearance. */
  function HiddenOf(genes: seq<Gene>): seq<NodeId>
  {
    if genes == [] then []
    else
      var g := genes[|genes| - 1];
      var h := HiddenOf(genes[..|genes| - 1]);
      if g.enabled then Visit(Visit(h, g.from), g.to) else h
  }

  /** The connection dictionary: one entry per enabled gene's endpoints, the
      later gene overwriting the earlier. */
  function ConnsOf(genes: seq<Gene>): map<ConnKey, Connection>
  {
    if genes == [] then map[]
    else
      var g := genes[|genes| - 1];
      var m := ConnsOf(genes[..|genes| - 1]);
      if g.enabled then m[ConnKey(g.from, g.to) := Connection(g.from, g.to, g.weight)] else m
  }

  /** The insertion order of the connection dictionary. */
  function KeysOf(genes: seq<Gene>): seq<ConnKey>
  {
    if genes == [] then []
    else
      var g := genes[|genes| - 1];
      var o := KeysOf(genes[..|genes| - 1]);
      if g.enabled then AppendNew(o, [ConnKey(g.from, g.to)]) else o
  }

  /** The enabled genes, in order. */
  function Enabled(genes: seq<Gene>): (r: seq<Gene>)
    ensures |r| <= |genes|
  {
    if genes == [] then []
    else
      var g := genes[|genes| - 1];
      var e := Enabled(genes[..|genes| - 1]);
      if g.enabled then e + [g] else e
  }

  /** Whether gene `g` names node `n` at either end. */
  predicate Names(g: Gene, n: NodeId)
  {
    g.from == n || g.to == n
  }

  /** The node dictionary of a network built by `getNetwork`: BIAS, the
      layout's inputs and outputs, and the listed hidden nodes. */
  ghost predicate Materialised(network: Network, inputNodes: nat, outputNodes: nat)
    reads network
  {
    && network.Valid()
    && |network.inputs| == inputNodes && |network.outputs| == outputNodes
    && forall n :: n in network.nodes <==> InLayout(n, inputNodes, 0, outputNodes) || n in network.hidden
  }

  /** `getNetwork` adds a HIDDEN node for a gene end only when no node of that
      name exists; this is the body of either `if` of the loop. */
  method AddGeneNode(network: Network, id: NodeId, ghost inputNodes: nat, ghost outputNodes: nat)
    requires Materialised(network, inputNodes, outputNodes)
    modifies network`nodes, network`hidden
    ensures Materialised(network, inputNodes, outputNodes)
    ensures network.hidden == Visit(old(network.hidden), id)
  {
    if id !in network.nodes && id.Hidden? {
      network.nodes := network.nodes[id := NewNode(0.0)];
      network.hidden := network.hidden + [id];
    }
  }

  /** One turn of the `forEach` of `getNetwork`. */
  method AddGene(network: Network, gene: Gene, ghost inputNodes: nat, ghost outputNodes: nat)
    requires Materialised(network, inputNodes, outputNodes)
    modifies network`nodes, network`hidden, network`connections, network`connOrder
    ensures Materialised(network, inputNodes, outputNodes)
    ensures network.hidden == if gene.enabled then Visit(Visit(old(network.hidden), gene.from), gene.to) else old(network.hidden)
    ensures network.connections == if gene.enabled
              then old(network.connections)[ConnKey(gene.from, gene.to) := Connection(gene.from, gene.to, gene.weight)]
              else old(network.connections)
    ensures network.connOrder == if gene.enabled
              then AppendNew(old(network.connOrder), [ConnKey(gene.from, gene.to)])
              else old(network.connOrder)
  {
    if gene.enabled {
      AddGeneNode(network, gene.from, inputNodes, outputNodes);
      AddGeneNode(network, gene.to, inputNodes, outputNodes);
      network.AddConnection(gene.from, gene.to, gene.weight);
    }
  }

  /** The prefix functions extended by one gene. */
  lemma PrefixStep(genes: seq<Gene>, i: nat)
    requires i < |genes|
    ensures var g := genes[i];
            && HiddenOf(genes[..i + 1]) == (if g.enabled then Visit(Visit(HiddenOf(genes[..i]), g.from), g.to) else HiddenOf(genes[..i]))
            && ConnsOf(genes[..i + 1]) == (if g.enabled then ConnsOf(genes[..i])[ConnKey(g.from, g.to) := Connection(g.from, g.to, g.weight)] else ConnsOf(genes[..i]))
            && KeysOf(genes[..i + 1]) == (if g.enabled then AppendNew(KeysOf(genes[..i]), [ConnKey(g.from, g.to)]) else KeysOf(genes[..i]))
  {
    assert genes[..i + 1][..i] == genes[..i];
  }

  /** `getNetwork()`: a fresh network with the genome's inputs and outputs,
      the hidden nodes its enabled genes name, and one connection per enabled
      gene's endpoints carrying the last such gene's weight. */
  method GetNetwork(g: Genome) returns (network: Network)
    ensures fresh(network) && Materialised(network, g.inputNodes, g.outputNodes)
    ensures network.hidden == HiddenOf(g.genes)
    ensures network.connections == ConnsOf(g.genes)
    ensures network.connOrder == KeysOf(g.genes)
  {
    network := new Network(0, 0, 0, false, []);
    network.CreateNodes(g.inputNodes, 0, g.outputNodes);
    for i := 0 to |g.genes|
      invariant Materialised(network, g.inputNodes, g.outputNodes)
      invariant network.hidden == HiddenOf(g.genes[..i])
      invariant network.connections == ConnsOf(g.genes[..i])
      invariant network.connOrder == KeysOf(g.genes[..i])
    {
      PrefixStep(g.genes, i);
      AddGene(network, g.genes[i], g.inputNodes, g.outputNodes);
    }
    assert g.genes[..|g.genes|] == g.genes;
  }

  // ---------------------------------------------------------------------
  // Properties of the phenotype.

  lemma {:induction false} VisitFacts(h: seq<NodeId>, n: NodeId)
    requires Distinct(h)
    ensures Distinct(Visit(h, n))
    ensures forall m :: m in Visit(h, n) <==> m in h || (m == n && n.Hidden?)
  {
  }

  /** Each hidden node is listed once, and the listed nodes are exactly the
      HIDDEN nodes some enabled gene names. */
  lemma {:induction false} HiddenOfFacts(genes: seq<Gene>)
    ensures Distinct(HiddenOf(genes))
    ensures forall n :: n in HiddenOf(genes) <==>
              n.Hidden? && exists i :: 0 <= i < |genes| && genes[i].enabled && Names(genes[i], n)
  {
    if genes != [] {
      var p := genes[..|genes| - 1];
      var g := genes[|genes| - 1];
      HiddenOfFacts(p);
      assert forall i :: 0 <= i < |p| ==> p[i] == genes[i];
      if g.enabled {
        VisitFacts(HiddenOf(p), g.from);
        VisitFacts(Visit(HiddenOf(p), g.from), g.to);
      }
    }
  }

  /** Disabled genes contribute no node and no connection. */
  lemma {:induction false} DisabledIgnored(genes: seq<Gene>)
    ensures HiddenOf(Enabled(genes)) == HiddenOf(genes)
    ensures ConnsOf(Enabled(genes)) == ConnsOf(genes)
    ensures KeysOf(Enabled(genes)) == KeysOf(genes)
  {
    if genes != [] {
      var p := genes[..|genes| - 1];
      var g := genes[|genes| - 1];
      DisabledIgnored(p);
      if g.enabled {
        assert (Enabled(p) + [g])[..|Enabled(p)|] == Enabled(p);
      }
    }
  }

  /** The dictionary holds exactly the endpoints of the enabled genes. */
  lemma {:induction false} ConnsOfKeys(genes: seq<Gene>, k: ConnKey)
    ensures k in ConnsOf(genes) <==>
              exists i :: 0 <= i < |genes| && genes[i].enabled && ConnKey(genes[i].from, genes[i].to) == k
  {
    if genes != [] {
      var p := genes[..|genes| - 1];
      ConnsOfKeys(p, k);
      assert forall i :: 0 <= i < |p| ==> p[i] == genes[i];
    }
  }

  /** An enabled gene that no later enabled gene with the same endpoints
      follows gives the connection under its endpoints: the last gene wins. */
  lemma {:induction false} ConnsOfLastWins(genes: seq<Gene>, i: nat)
    requires i < |genes| && genes[i].enabled
    requires forall j :: i < j < |genes| && genes[j].enabled ==>
               ConnKey(genes[j].from, genes[j].to) != ConnKey(genes[i].from, genes[i].to)
    ensures ConnKey(genes[i].from, genes[i].to) in ConnsOf(genes)
    ensures ConnsOf(genes)[ConnKey(genes[i].from, genes[i].to)] == GetConnection(genes[i])
  {
    var p := genes[..|genes| - 1];
    if i < |genes| - 1 {
      assert forall j :: i < j < |p| ==> p[j] == genes[j];
      ConnsOfLastWins(p, i);
    }
  }

  /** The insertion order lists every connection key once. */
  lemma {:induction false} KeysOfMatchesConns(genes: seq<Gene>)
    ensures Distinct(KeysOf(genes))
    ensures forall k :: k in KeysOf(genes) <==> k in ConnsOf(genes)
  {
    if genes != [] {
      var p := genes[..|genes| - 1];
      var g := genes[|genes| - 1];
      KeysOfMatchesConns(p);
      if g.enabled {
        AppendNewFacts(KeysOf(p), [ConnKey(g.from, g.to)]);
      }
    }
  }
}

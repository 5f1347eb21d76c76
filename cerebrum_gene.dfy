// Model of Javascript/Cerebrum/src/Gene.js: the genotype's connection gene.

module CerebrumGene {
  import opened CerebrumConnection

  /** A connection gene. `from`/`to` are the source's `in`/`out`. */
  datatype Gene = Gene(innovation: nat, from: NodeId, to: NodeId, weight: real, enabled: bool)

  /** `new Gene(in, out)` with every default: weight 1, innovation 0, enabled. */
  function NewGene(inId: NodeId, outId: NodeId): (g: Gene)
    ensures g.from == inId && g.to == outId
    ensures g.weight == 1.0 && g.innovation == 0 && g.enabled
  {
    Gene(0, inId, outId, 1.0, true)
  }

  /** `new Gene(in, out, weight, innovation)`: enabled by default. */
  function NewGeneNumbered(inId: NodeId, outId: NodeId, weight: real, innovation: nat): (g: Gene)
    ensures g.from == inId && g.to == outId && g.weight == weight
    ensures g.innovation == innovation && g.enabled
  {
    Gene(innovation, inId, outId, weight, true)
  }

  /** `getConnection`: the phenotype connection the gene describes. */
  function GetConnection(g: Gene): (c: Connection)
    ensures c.from == g.from && c.to == g.to && c.weight == g.weight
    ensures Id(c.from, c.to) == Id(g.from, g.to)
  {
    Connection(g.from, g.to, g.weight)
  }

  /** Two genes over the same endpoints yield connections with the same id,
      and genes over different endpoints yield different ids. */
  lemma {:induction false} SameEndpointsSameId(g: Gene, h: Gene)
    ensures Id(GetConnection(g).from, GetConnection(g).to) == Id(GetConnection(h).from, GetConnection(h).to)
            <==> g.from == h.from && g.to == h.to
  {
    IdInjective(g.from, g.to, h.from, h.to);
  }
}

# NEAT engines and a Tetris host, modelled in Dafny

This project models the discrete, structural logic of the repository's three
NEAT (NeuroEvolution of Augmenting Topologies) implementations and of the
Tetris game that hosts one of them. It also proves properties of that model.
Weights, scores and fitness values are Dafny `real`s. Every `Math.random()`
draw is a caller-supplied value in `[0, 1)`, or a stream `d: nat -> real` of
such values. A JavaScript exception is the `Throws` case of an `Outcome`, and
`undefined` is `None`.

- **Cerebrum** (`cerebrum_*.dfy`): the textbook NEAT genotype engine.
  - Genes, genomes and species.
  - The dictionary-keyed phenotype `Network` that `Genome.getNetwork` builds.
  - `Neuroevolution`: the per-generation innovation table with its global
    counter; the link, node-split, bias and point mutations; crossover aligned
    by innovation number; the compatibility distance and first-fit
    speciation; culling; and the species-proportional offspring allocation
    with its backfill loop.
  - Node ids are a datatype rather than strings. A lemma shows that the
    source's `in:out` string ids are injective, so the two keyings agree.
  - Kept as the source has them: bias genes with innovation 0, unmatched
    genes taken from both parents, the mutated elite, and the `NaN` of two
    empty genomes' compatibility.
- **NeatJS** (`neat_*.dfy`): the phenotype graph and the generation driver.
  - Nodes and connections live in an arena, the `Graph` class, and refer to
    one another by position. A `Network` holds index lists into that arena.
  - Graph operations: connect, disconnect, gate, ungate and node removal.
  - The mutation catalogue, with its no-op and throw conditions.
  - `toJSON` and `Network.fromJSON`. The model follows the function assigned
    after the class, which replaces the static method. With the gaters
    written after the walk (the Findings row on network.js:532-537),
    `fromJSON(toJSON())` is proved to give the network back
    (`NeatRoundTrip.RoundTrip`).
  - `Network.crossOver`, `architect.Construct` and the layer checks.
  - The flat dataset encoding and the serialized-network record walk of
    `multi.js`.
  - The `Neat` driver: pool creation, `evolve`'s bookkeeping, mutation
    selection under the caps, sorting, the three parent selections and
    `import`.
- **Tetris** (`tetris_*.dfy`): the pieces, board and game, and the AI.
  - Pieces, board and game: rotation, the inside and bounds tests, merging,
    line clearing, the board metrics, and the moves, drop and lock of `Game`.
  - The AI: its metrics, and its exhaustive search over rotations and
    translations on copies of the board.
- **Rust** (`rust_neat.dfy`): the linear congruential generator `SimpleRng`
  (modulo 2^32, computed in a `u64`), and the shapes and fixed-seed draws of
  `NeuralNetwork::new`.

Methods change state step by step as the source does: classes with `seq`
and `map` fields, loops with invariants. Each method is proved against a
specification function, and lemmas state what the source promises about
that function.

## Model

| member | source | states |
|---|---|---|
| CerebrumConnection.NewConnection | Javascript/Cerebrum/src/Connection.js:5-10 | a connection built without a weight joins the two given nodes with weight 1 |
| CerebrumConnection.Key | Javascript/Cerebrum/src/Connection.js:8 | the key of a connection is the pair of its endpoints |
| CerebrumConnection.Digits | Javascript/Cerebrum/src/Connection.js:8 | a node index is written as a non-empty string of decimal digits |
| CerebrumConnection.ValueOfDigits | Javascript/Cerebrum/src/Connection.js:8 | reading the decimal string of an index back gives the index |
| CerebrumConnection.DigitsInjective | Javascript/Cerebrum/src/Connection.js:8 | two indices with the same decimal string are equal |
| CerebrumConnection.Name | Javascript/Cerebrum/src/Connection.js:8 | a node name holds a colon exactly when the node is not BIAS |
| CerebrumConnection.NameInjective | Javascript/Cerebrum/src/Connection.js:8 | two nodes with the same name are the same node |
| CerebrumConnection.IdOfRole | Javascript/Cerebrum/src/Connection.js:8 | every connection id is the source's colon-free role name, a colon, then the source's index and a colon (for a non-BIAS source) and the target's name |
| CerebrumConnection.IdDeterminesSource | Javascript/Cerebrum/src/Connection.js:8 | equal connection ids have the same source node and target name |
| CerebrumConnection.IdInjective | Javascript/Cerebrum/src/Connection.js:8 | the string id `${in}:${out}` is equal for two connections exactly when their endpoints are equal, which justifies keying connections by endpoint pairs |
| CerebrumGene.NewGene | Javascript/Cerebrum/src/Gene.js:6-12 | a gene built with defaults has weight 1, innovation 0 and is enabled |
| CerebrumGene.NewGeneNumbered | Javascript/Cerebrum/src/Gene.js:6-12 | a gene built with weight and innovation keeps them and is enabled |
| CerebrumGene.GetConnection | Javascript/Cerebrum/src/Gene.js:14-16 | the phenotype connection carries the gene's endpoints and weight, and so the same id |
| CerebrumGene.SameEndpointsSameId | Javascript/Cerebrum/src/Gene.js:14-16 | genes over the same endpoints give connections with the same id |
| CerebrumHelper.RandomNumBetween | Javascript/Cerebrum/src/Helper.js:6 | the pick lies in [min, max] whenever min <= max |
| CerebrumHelper.RandomNumBetweenSlice | Javascript/Cerebrum/src/Helper.js:6 | every integer of [min, max] is the pick for exactly the draws in its slice of width 1/(max-min+1) |
| CerebrumHelper.RandomWeightedNumBetween | Javascript/Cerebrum/src/Helper.js:8 | the squared-draw pick lies in [min, max] whenever min <= max |
| CerebrumHelper.WeightedNotAboveUniform | Javascript/Cerebrum/src/Helper.js:6-8 | for the same draw the weighted pick is never above the uniform pick, so it favours the front of a sorted list |
| CerebrumHelper.CompareAscending | Javascript/Cerebrum/src/Helper.js:10 | the comparator is negative exactly when the first genome is less fit |
| CerebrumHelper.CompareDescending | Javascript/Cerebrum/src/Helper.js:12 | the comparator is negative exactly when the first genome is fitter, zero exactly on equal fitness |
| CerebrumHelper.AscendingIsNegatedDescending | Javascript/Cerebrum/src/Helper.js:10-12 | the two comparators are negations of each other, and the descending one is antisymmetric |
| CerebrumHelper.Insert | Javascript/Cerebrum/src/Helper.js:12 | inserting into the sorted list adds exactly the one genome |
| CerebrumHelper.InsertSorted | Javascript/Cerebrum/src/Helper.js:12 | inserting keeps a list sorted by descending fitness |
| CerebrumHelper.SortDescendingCorrect | Javascript/Cerebrum/src/Helper.js:12 | sorting with compareGenomesDescending orders by descending fitness and keeps exactly the same genomes |
| CerebrumHelper.SortedFrontIsFittest | Javascript/Cerebrum/src/Helper.js:12 | after the sort the first genome is at least as fit as every genome |
| CerebrumSpecies.CeilHalf | Javascript/Cerebrum/src/Species.js:12 | the default `remaining` is the ceiling of half the genome count |
| CerebrumSpecies.KeptCount | Javascript/Cerebrum/src/Species.js:12-15 | `slice(0, remaining)` keeps min(remaining, n) genomes, and a non-empty species keeps at least one by default |
| CerebrumSpecies.AverageOf | Javascript/Cerebrum/src/Species.js:17-20 | the average is undefined (NaN) exactly for an empty species |
| CerebrumSpecies.Species.constructor | Javascript/Cerebrum/src/Species.js:7-10 | a new species has no genomes and average fitness 0 |
| CerebrumSpecies.Species.Cull | Javascript/Cerebrum/src/Species.js:12-15 | cull leaves the first KeptCount genomes of the descending sort, sorted |
| CerebrumSpecies.Species.CalculateAverageFitness | Javascript/Cerebrum/src/Species.js:17-20 | the new average is the total fitness over the genome count |
| CerebrumSpecies.CullKeepsFittest | Javascript/Cerebrum/src/Species.js:12-15 | every genome culled away is no fitter than every genome kept |
| CerebrumSpecies.TotalFitnessBounds | Javascript/Cerebrum/src/Species.js:18 | fitness values between lo and hi total between n·lo and n·hi |
| CerebrumSpecies.AverageBetween | Javascript/Cerebrum/src/Species.js:17-20 | the average of a non-empty species lies between its least and greatest fitness |
| CerebrumGenome.NewGenome | Javascript/Cerebrum/src/Genome.js:8-15 | a new genome keeps the layout, has no genes, fitness −Number.MAX_VALUE and rank 0 |
| CerebrumNeuroevolution.Neuroevolution.CreateGenome | Javascript/Cerebrum/src/Genome.js:8-15 | `new Genome` gives that genome and takes exactly one draw, its unread random identifier |
| CerebrumGenome.HasEdge | Javascript/Cerebrum/src/Genome.js:17-19 | true exactly when some gene, enabled or not, joins the two nodes |
| CerebrumGenome.ContainsGene | Javascript/Cerebrum/src/Genome.js:17-19 | `containsGene` is true exactly when some gene of the genome joins the two nodes |
| CerebrumGenome.Enabled | Javascript/Cerebrum/src/Genome.js:25 | the enabled genes are at most all the genes |
| CerebrumGenome.AddGeneNode | Javascript/Cerebrum/src/Genome.js:26-33 | a HIDDEN gene end with no node yet gets a node and is appended to `hidden`; the node dictionary stays the materialised one |
| CerebrumGenome.AddGene | Javascript/Cerebrum/src/Genome.js:24-36 | one turn of the loop: an enabled gene adds its hidden ends and its connection (overwriting the same endpoints), a disabled one changes nothing |
| CerebrumGenome.PrefixStep | Javascript/Cerebrum/src/Genome.js:24-36 | the hidden list, dictionary and key order of a gene prefix extend by the next gene as one loop turn does |
| CerebrumGenome.GetNetwork | Javascript/Cerebrum/src/Genome.js:21-38 | `getNetwork` builds a fresh network whose hidden nodes, connections and their order are those of the enabled genes |
| CerebrumGenome.VisitFacts | Javascript/Cerebrum/src/Genome.js:26-33 | visiting a node keeps `hidden` free of repeats and adds exactly a new HIDDEN node |
| CerebrumGenome.HiddenOfFacts | Javascript/Cerebrum/src/Genome.js:24-36 | each hidden node is listed once, and the list holds exactly the HIDDEN nodes some enabled gene names |
| CerebrumGenome.DisabledIgnored | Javascript/Cerebrum/src/Genome.js:25 | disabled genes contribute no node and no connection |
| CerebrumGenome.ConnsOfKeys | Javascript/Cerebrum/src/Genome.js:34 | the dictionary holds exactly the endpoint pairs of the enabled genes |
| CerebrumGenome.ConnsOfLastWins | Javascript/Cerebrum/src/Genome.js:34 | for repeated endpoints the last enabled gene's connection is the one kept |
| CerebrumGenome.KeysOfMatchesConns | Javascript/Cerebrum/src/Genome.js:34 | the insertion order lists every dictionary key exactly once |
| CerebrumNetwork.NewNode | Javascript/Cerebrum/src/Network.js:15 | a new node holds the given value, bias 0 and empty connection lists |
| CerebrumNetwork.ToUpper | Javascript/Cerebrum/src/Network.js:66 | `toUpperCase` on the ASCII range: each ASCII lower-case letter becomes its upper-case letter and every other character is kept (non-ASCII case mappings are not modelled) |
| CerebrumNetwork.FromMembers | Javascript/Cerebrum/src/Network.js:94-97 | the keys filed under a node's outgoing list are exactly the connections leaving it |
| CerebrumNetwork.IntoMembers | Javascript/Cerebrum/src/Network.js:94-97 | the keys filed under a node's incoming list are exactly the connections entering it |
| CerebrumNetwork.FromDistinct | Javascript/Cerebrum/src/Network.js:94-97 | an outgoing list built from distinct keys has no repeats |
| CerebrumNetwork.IntoDistinct | Javascript/Cerebrum/src/Network.js:94-97 | an incoming list built from distinct keys has no repeats |
| CerebrumNetwork.FanOut | Javascript/Cerebrum/src/Network.js:118-121 | the inner loop visits one key from the source to each target, in order |
| CerebrumNetwork.LayerKeysLength | Javascript/Cerebrum/src/Network.js:117-133 | one outer loop visits sources·(targets+1) keys |
| CerebrumNetwork.LayerKeysAppend | Javascript/Cerebrum/src/Network.js:117-133 | the keys of a split source list are the keys of its parts in order |
| CerebrumNetwork.AllKeys | Javascript/Cerebrum/src/Network.js:114-134 | `createAllConnections` visits I·H + I + H·O + H keys |
| CerebrumNetwork.RandomWeight | Javascript/Cerebrum/src/Network.js:115 | a random weight lies in [−2, 2) |
| CerebrumNetwork.AllWeight | Javascript/Cerebrum/src/Network.js:119-131 | every weight is 1 when `randomWeights` is false |
| CerebrumNetwork.AppendNewFacts | Javascript/Cerebrum/src/Network.js:109-112 | the insertion order stays free of repeats, holds the old and the added keys, and only grows at the end |
| CerebrumNetwork.AppendNewFresh | Javascript/Cerebrum/src/Network.js:109-112 | keys never seen before are appended in order |
| CerebrumNetwork.AddAllKeys | Javascript/Cerebrum/src/Network.js:109-112 | after adding keys the dictionary holds the old and the added keys, and keys not added keep their connection |
| CerebrumNetwork.AddAllAt | Javascript/Cerebrum/src/Network.js:119-131 | with distinct keys, the k-th key carries the k-th weight |
| CerebrumNetwork.FanOutDistinct | Javascript/Cerebrum/src/Network.js:118-121 | the inner loop visits no key twice |
| CerebrumNetwork.LayerKeysMembers | Javascript/Cerebrum/src/Network.js:117-133 | an outer loop visits exactly source→target and BIAS→source keys |
| CerebrumNetwork.LayerKeysDistinct | Javascript/Cerebrum/src/Network.js:117-133 | with distinct sources and targets an outer loop visits no key twice |
| CerebrumNetwork.AllKeysDistinct | Javascript/Cerebrum/src/Network.js:114-134 | with distinct node lists every key is new, so exactly I·H + I + H·O + H connections are added |
| CerebrumNetwork.NoHiddenNoOutputs | Javascript/Cerebrum/src/Network.js:126-133 | without hidden nodes no connection reaches an output |
| CerebrumNetwork.InputLayout | Javascript/Cerebrum/src/Network.js:43-47 | adding the next input grows the node layout by exactly INPUT:i |
| CerebrumNetwork.HiddenLayout | Javascript/Cerebrum/src/Network.js:49-53 | adding the next hidden node grows the layout by exactly HIDDEN:h |
| CerebrumNetwork.OutputLayout | Javascript/Cerebrum/src/Network.js:55-59 | adding the next output grows the layout by exactly OUTPUT:o |
| CerebrumNetwork.Network.constructor | Javascript/Cerebrum/src/Network.js:9-29 | the new network has BIAS with value 1 and exactly the requested INPUT, HIDDEN and OUTPUT nodes, and the full connection set when asked |
| CerebrumNetwork.Network.CreateNodes | Javascript/Cerebrum/src/Network.js:31-41 | the network holds BIAS and ROLE:0..n−1 for each role afterwards |
| CerebrumNetwork.Network.CreateInputs | Javascript/Cerebrum/src/Network.js:32-34 | the input loop adds INPUT:0..n−1 and nothing else |
| CerebrumNetwork.Network.CreateHidden | Javascript/Cerebrum/src/Network.js:35-37 | the hidden loop adds HIDDEN:0..n−1, listed in order |
| CerebrumNetwork.Network.CreateOutputs | Javascript/Cerebrum/src/Network.js:38-40 | the output loop adds OUTPUT:0..n−1 and keeps the hidden list |
| CerebrumNetwork.Network.AddInput | Javascript/Cerebrum/src/Network.js:43-47 | adds INPUT:len with the given value and appends it to `inputs` |
| CerebrumNetwork.Network.AddHidden | Javascript/Cerebrum/src/Network.js:49-53 | adds HIDDEN:len with value 0 and appends it to `hidden` |
| CerebrumNetwork.Network.AddOutput | Javascript/Cerebrum/src/Network.js:55-59 | adds OUTPUT:len with value 0 and appends it to `outputs` |
| CerebrumNetwork.Network.GetNode | Javascript/Cerebrum/src/Network.js:65-76 | returns null exactly for an unknown type string, and otherwise the node the role list names (undefined beyond it) |
| CerebrumNetwork.Network.GetConnection | Javascript/Cerebrum/src/Network.js:78-80 | a connection is returned exactly for a stored key, with that key's endpoints |
| CerebrumNetwork.Network.AddConnection | Javascript/Cerebrum/src/Network.js:109-112 | stores the connection under "in:out", replacing an existing one, and new keys go to the end of the insertion order |
| CerebrumNetwork.Network.CreateAllConnections | Javascript/Cerebrum/src/Network.js:114-134 | adds every key of AllKeys with the k-th draw's weight, in loop order |
| CerebrumNetwork.Network.ConnectAll | Javascript/Cerebrum/src/Network.js:117-133 | the two outer loops in turn add the input layer's keys, then the hidden layer's, drawing weights in one sequence |
| CerebrumNetwork.Network.ConnectLayer | Javascript/Cerebrum/src/Network.js:117-133 | one outer loop adds its layer's keys in order |
| CerebrumNetwork.Network.ConnectSourceAt | Javascript/Cerebrum/src/Network.js:117-123 | one outer turn extends the added keys from the first i sources to the first i + 1 |
| CerebrumNetwork.Network.ConnectSource | Javascript/Cerebrum/src/Network.js:118-123 | one outer turn adds source→each target, then BIAS→source |
| CerebrumNetwork.Network.ConnectTargets | Javascript/Cerebrum/src/Network.js:118-121 | the inner loop adds source→each target with consecutive draws |
| CerebrumNetwork.Network.ConnectTarget | Javascript/Cerebrum/src/Network.js:119-120 | one inner turn adds the connection to target j with draw start + j |
| CerebrumNetwork.Network.UpdateNodeConnections | Javascript/Cerebrum/src/Network.js:88-98 | every node's lists are rebuilt from the connections alone, and nothing else changes |
| CerebrumNetwork.Network.SetInputs | Javascript/Cerebrum/src/Network.js:140-144 | INPUT:i gets `array[i]` and every other node is unchanged |
| CerebrumNetwork.AddAllSnocFrom | Javascript/Cerebrum/src/Network.js:119-131 | adding one more key extends the dictionary by that key's weight |
| CerebrumNetwork.AddAllAppend | Javascript/Cerebrum/src/Network.js:117-133 | adding two key lists is adding the first, then the second from the following draw |
| CerebrumNetwork.AppendNewAppend | Javascript/Cerebrum/src/Network.js:117-133 | the insertion order after two key lists is that after the first, then the second |
| CerebrumNetwork.LayerKeysStep | Javascript/Cerebrum/src/Network.js:117-124 | the keys of i+1 sources are those of i sources and the i-th source's block |
| CerebrumNetwork.WiredAt | Javascript/Cerebrum/src/Network.js:88-98 | after the rebuild each node's lists are the keys leaving and entering it |
| CerebrumNetwork.Rewire | Javascript/Cerebrum/src/Network.js:88-98 | the two loops clear every list and then file every key |
| CerebrumNetwork.WiredSnoc | Javascript/Cerebrum/src/Network.js:94-97 | filing one more key appends it to its source's outgoing and its target's incoming list |
| CerebrumNetwork.WiredOnce | Javascript/Cerebrum/src/Network.js:88-98 | each connection is listed exactly once in its source's outgoing and once in its target's incoming list |
| CerebrumEvolutionSpec.IncludesRole | Javascript/Cerebrum/src/Neuroevolution.js:67 | a node name includes INPUT exactly when the node is an input, and OUTPUT exactly when it is an output |
| CerebrumEvolutionSpec.IncludesHiddenName | Javascript/Cerebrum/src/Neuroevolution.js:69 | a node name includes HIDDEN:<k> exactly when it is a hidden node whose decimal index starts with the digits of k |
| CerebrumEvolutionSpec.MaxHiddenIndex | Javascript/Cerebrum/src/Neuroevolution.js:69 | no gene names a hidden node above this index |
| CerebrumEvolutionSpec.MentionedBelowMax | Javascript/Cerebrum/src/Neuroevolution.js:69-71 | every index the name search skips is at most the largest hidden index named, so the search ends |
| CerebrumEvolutionSpec.UnmentionedIsFresh | Javascript/Cerebrum/src/Neuroevolution.js:69-71 | the index the search stops at names a node that no gene mentions |
| CerebrumEvolutionSpec.FirstFree | Javascript/Cerebrum/src/Neuroevolution.js:68-71 | the search never goes below its starting index |
| CerebrumEvolutionSpec.FirstFreeFacts | Javascript/Cerebrum/src/Neuroevolution.js:68-71 | the search stops at the first index from its start whose HIDDEN name no gene includes, and every index before it is included by some gene |
| CerebrumEvolutionSpec.PrefixBlocksFreeName | Javascript/Cerebrum/src/Neuroevolution.js:69 | with HIDDEN:0 and HIDDEN:12 in use the search skips the free name HIDDEN:1, because the test is a substring test |
| CerebrumEvolutionSpec.Split | Javascript/Cerebrum/src/Neuroevolution.js:74-77 | the split adds exactly two genes and keeps every existing innovation |
| CerebrumEvolutionSpec.NodeSplitOf | Javascript/Cerebrum/src/Neuroevolution.js:63-81 | a node split keeps every gene's innovation and adds at most two genes |
| CerebrumEvolutionSpec.DisableKeepsHidden | Javascript/Cerebrum/src/Neuroevolution.js:75 | disabling an input-to-output gene leaves the network's hidden nodes unchanged |
| CerebrumEvolutionSpec.SplitAddsHiddenNode | Javascript/Cerebrum/src/Neuroevolution.js:73-78 | splitting at an unused name adds exactly that hidden node, at the end of the network's hidden list |
| CerebrumEvolutionSpec.IndexByInnovationFacts | Javascript/Cerebrum/src/Neuroevolution.js:148-156 | an innovation has an index exactly when some gene carries it, and the index is that of the last such gene |
| CerebrumEvolutionSpec.GeneByInnovationIsIndexed | Javascript/Cerebrum/src/Neuroevolution.js:148-161 | the gene looked up by innovation is the gene at the indexed position |
| CerebrumEvolutionSpec.Unmatched | Javascript/Cerebrum/src/Neuroevolution.js:168-172 | the second loop adds no more genes than the second parent has |
| CerebrumEvolutionSpec.CrossFront | Javascript/Cerebrum/src/Neuroevolution.js:158-166 | the child gets exactly one gene per gene of the first parent |
| CerebrumEvolutionSpec.CrossFrontChoices | Javascript/Cerebrum/src/Neuroevolution.js:158-166 | each front gene is the first parent's gene, or, when the second parent shares its innovation and the draw is at least 0.5, the second parent's gene of that innovation |
| CerebrumEvolutionSpec.CrossoverOfIsCrossover | Javascript/Cerebrum/src/Neuroevolution.js:146-175 | for every sequence of draws, the child is one that the description of crossover allows |
| CerebrumEvolutionSpec.CrossoverKeepsInnovations | Javascript/Cerebrum/src/Neuroevolution.js:158-166 | the child gene at each of the first parent's positions carries that gene's innovation |
| CerebrumEvolutionSpec.UnmatchedAreNew | Javascript/Cerebrum/src/Neuroevolution.js:168-172 | every gene appended by the second loop comes from the second parent and carries an innovation the first parent lacks |
| CerebrumEvolutionSpec.RowSumUnique | Javascript/Cerebrum/src/Neuroevolution.js:259-265 | when innovations are unique, a gene's weight term is its weight gap to the one gene of the other genome with the same innovation, or 0 |
| CerebrumEvolutionSpec.GeneKeys | Javascript/Cerebrum/src/Neuroevolution.js:257 | the innovation map's keys are exactly the genome's innovation numbers |
| CerebrumEvolutionSpec.WeightGapIsPairSum | Javascript/Cerebrum/src/Neuroevolution.js:259-265 | the weight sum of the first loop equals the sum over all pairs of genes with equal innovations |
| CerebrumEvolutionSpec.PairSumSymmetric | Javascript/Cerebrum/src/Neuroevolution.js:259-265 | the pairwise weight sum does not depend on which genome comes first |
| CerebrumEvolutionSpec.CompatibilitySymmetric | Javascript/Cerebrum/src/Neuroevolution.js:252-275 | when neither genome repeats an innovation, the compatibility distance of a and b equals that of b and a |
| CerebrumEvolutionSpec.FirstFit | Javascript/Cerebrum/src/Neuroevolution.js:212-220 | a genome joins the first species whose head it matches; it matches none of the species before that one |
| CerebrumEvolutionSpec.Place | Javascript/Cerebrum/src/Neuroevolution.js:212-226 | placing a genome leaves every species non-empty and never removes a species |
| CerebrumEvolutionSpec.Speciation | Javascript/Cerebrum/src/Neuroevolution.js:209-227 | every species is non-empty, and a non-empty population forms at least one species |
| CerebrumEvolutionSpec.FlattenUpdate | Javascript/Cerebrum/src/Neuroevolution.js:216 | adding a genome to one species adds exactly that genome to the population |
| CerebrumEvolutionSpec.PlaceAdds | Javascript/Cerebrum/src/Neuroevolution.js:212-226 | one placement adds exactly the placed genome to the species' contents |
| CerebrumEvolutionSpec.SpeciationPartition | Javascript/Cerebrum/src/Neuroevolution.js:209-227 | the species together hold exactly the population, as a multiset |
| CerebrumEvolutionSpec.SpeciationFirstFit | Javascript/Cerebrum/src/Neuroevolution.js:212-226 | in the result, every genome sits in the first species whose head it matches |
| CerebrumEvolutionSpec.CullAll | Javascript/Cerebrum/src/Neuroevolution.js:229-234 | the culled species are all non-empty and no more numerous than before |
| CerebrumEvolutionSpec.DefaultCullKeepsSpecies | Javascript/Cerebrum/src/Neuroevolution.js:183 | culling with the default remaining count drops no species |
| CerebrumEvolutionSpec.Averages | Javascript/Cerebrum/src/Neuroevolution.js:236-238 | there is one average per species |
| CerebrumEvolutionSpec.AveragesAt | Javascript/Cerebrum/src/Neuroevolution.js:236-238 | each species' average is its total fitness over its size |
| CerebrumEvolutionSpec.ContributionBelowShare | Javascript/Cerebrum/src/Neuroevolution.js:189 | the floor of a species' share never exceeds the share itself |
| CerebrumEvolutionSpec.AllocatedBelowShares | Javascript/Cerebrum/src/Neuroevolution.js:188-196 | the children the species loop makes add up to at most the sum of their shares |
| CerebrumEvolutionSpec.AllocationFits | Javascript/Cerebrum/src/Neuroevolution.js:186-196 | with a positive total of non-negative averages, the species loop makes at most populationSize children |
| CerebrumEvolutionSpec.SortKeepsShape | Javascript/Cerebrum/src/Neuroevolution.js:180 | sorting keeps every genome's input and output counts |
| CerebrumEvolutionSpec.SpeciationShaped | Javascript/Cerebrum/src/Neuroevolution.js:209-227 | every species holds genomes of the population's shape |
| CerebrumEvolutionSpec.CullAllShaped | Javascript/Cerebrum/src/Neuroevolution.js:229-234 | culling keeps every species' genomes of the population's shape |
| CerebrumEvolutionSpec.EvolveGroupsFacts | Javascript/Cerebrum/src/Neuroevolution.js:180-184 | the culled species of evolve keep the population's shape, exist when the population is non-empty, and have the averages computed for them |
| CerebrumNeuroevolution.RandomSource.Next | Javascript/Cerebrum/src/Neuroevolution.js:59 | each Math.random draw is the next value of the draw sequence and lies in [0, 1) |
| CerebrumNeuroevolution.MutationRates | Javascript/Cerebrum/src/Neuroevolution.js:20-29 | a mutation rate the caller passes overrides the default, even when it is 0; a missing one takes its default (createNode 0.02, and so on) |
| CerebrumNeuroevolution.OrDefault | Javascript/Cerebrum/src/Neuroevolution.js:33-36 | `x \|\| default`: the result is 0 only when the default is 0 |
| CerebrumNeuroevolution.OrDefaultNat | Javascript/Cerebrum/src/Neuroevolution.js:19 | `populationSize \|\| 100`: the result is 0 only when the default is 0 |
| CerebrumNeuroevolution.TotalAverage | Javascript/Cerebrum/src/Neuroevolution.js:186 | the total of the species averages is NaN exactly when some species' average is NaN |
| CerebrumNeuroevolution.TotalAverageOf | Javascript/Cerebrum/src/Neuroevolution.js:186 | when every average is a number, the total is their sum |
| CerebrumNeuroevolution.Neuroevolution.RankedTotal | Javascript/Cerebrum/src/Neuroevolution.js:186 | over species whose averages are computed, the total is the sum of the averages |
| CerebrumNeuroevolution.BiasOf | Javascript/Cerebrum/src/Neuroevolution.js:86-93 | the bias step appends exactly the gene BIAS to n, and does so exactly when the network has no BIAS connection to n |
| CerebrumNeuroevolution.WeightShift | Javascript/Cerebrum/src/Neuroevolution.js:135 | a weight change lies within plus or minus weightMutationStep |
| CerebrumNeuroevolution.LinkOfFacts | Javascript/Cerebrum/src/Neuroevolution.js:101-131 | the link step only appends; the gene it appends is new to the genome, links input-to-output, input-to-hidden or hidden-to-output, is enabled, weighs in [-1, 1) and carries the number the table holds for its link afterwards: the number held before (counter unchanged) or the old counter (which then moves on by one); an empty genome gets one input-to-output gene; without a gene the table and counter are unchanged |
| CerebrumNeuroevolution.LinkStepOf | Javascript/Cerebrum/src/Neuroevolution.js:59-61 | the draw against createConnection and the link step keep every existing gene, add at most one, and the table only gains numbers below the new counter |
| CerebrumNeuroevolution.SplitOf | Javascript/Cerebrum/src/Neuroevolution.js:63-81 | the node-split step keeps every existing gene, adds at most two, leaves the table alone and never lowers the counter |
| CerebrumNeuroevolution.BiasStepOf | Javascript/Cerebrum/src/Neuroevolution.js:83-95 | the bias step keeps every existing gene and adds at most one |
| CerebrumNeuroevolution.PointMutatedAllKeeps | Javascript/Cerebrum/src/Neuroevolution.js:97 | point mutation keeps every gene's endpoints and innovation number, moves each weight by at most the step, and takes three or four draws per gene |
| CerebrumNeuroevolution.TailOf | Javascript/Cerebrum/src/Neuroevolution.js:83-97 | the bias step and the point mutation keep every existing gene and add at most one |
| CerebrumNeuroevolution.MutatedGenome | Javascript/Cerebrum/src/Neuroevolution.js:56-98 | one genome's turn keeps every number already in the table and adds only numbers the counter hands out, keeping the table below the counter |
| CerebrumNeuroevolution.MutatedGenomeGrows | Javascript/Cerebrum/src/Neuroevolution.js:56-98 | one genome's turn keeps its shape and its existing genes' innovations and endpoints, and adds at most four genes |
| CerebrumNeuroevolution.MutatedAllGrows | Javascript/Cerebrum/src/Neuroevolution.js:55-99 | over `mutate()` genome `i` keeps old genome `i`'s shape and existing innovations |
| CerebrumNeuroevolution.MutatedAllTable | Javascript/Cerebrum/src/Neuroevolution.js:55-99 | over `mutate()` every number already in the table stays, the table gains only numbers the counter hands out, and stays below the counter |
| CerebrumNeuroevolution.Neuroevolution.constructor | Javascript/Cerebrum/src/Neuroevolution.js:17-45 | every setting takes the caller's value or its default (populationSize 100, hiddenNodeCap 10, deltas 2, 0.4 and 2); the innovation counter starts at 1, the generation at 0, with no species and no innovations |
| CerebrumNeuroevolution.Neuroevolution.PickEndpoints | Javascript/Cerebrum/src/Neuroevolution.js:106-115 | the endpoints and the draws used are those of `LinkEnds`: a draw below 1/3, or a network without hidden nodes, links an input to an output; otherwise a second draw below 2/3 links an input to a hidden node, else a hidden node to an output; either way the link is input-to-output, input-to-hidden or hidden-to-output |
| CerebrumNeuroevolution.Neuroevolution.InnovationFor | Javascript/Cerebrum/src/Neuroevolution.js:120-126 | a link already numbered in this generation keeps its number; a new link takes the counter, which then grows by one, and nothing else in the table changes |
| CerebrumNeuroevolution.Neuroevolution.LinkMutate | Javascript/Cerebrum/src/Neuroevolution.js:101-131 | the genome, the draws used, the innovation table and the counter are exactly those `LinkOf` gives for the draws (whose properties `LinkOfFacts` states) |
| CerebrumNeuroevolution.Neuroevolution.AppendLink | Javascript/Cerebrum/src/Neuroevolution.js:117-128 | the tail of `linkMutate` is `LinkedAt`: no gene when the genome has one between the ends, otherwise one gene numbered from the table or the counter |
| CerebrumNeuroevolution.Neuroevolution.NodeSplit | Javascript/Cerebrum/src/Neuroevolution.js:63-81 | the genome, draws and counter are those of `SplitOf`; a changed genome comes with a freshly built network of its genes, an unchanged one keeps the old network |
| CerebrumNeuroevolution.Neuroevolution.SplitGene | Javascript/Cerebrum/src/Neuroevolution.js:67-79 | the genome and counter are those of `SplitAt`: an enabled INPUT-to-OUTPUT gene is split at the first free hidden name below the cap, taking two innovation numbers and rebuilding the network; anything else changes nothing |
| CerebrumNeuroevolution.Neuroevolution.FindFreeHidden | Javascript/Cerebrum/src/Neuroevolution.js:68-71 | the loop stops at the first hidden index whose name no gene includes |
| CerebrumNeuroevolution.Neuroevolution.BiasMutate | Javascript/Cerebrum/src/Neuroevolution.js:83-95 | after a draw below createBias, a draw above 0.5 with inputs picks an input, else a network with hidden nodes picks a hidden node, and that node gets a BIAS gene if it has none; the result is `BiasStepOf` of the draws, and it keeps every existing gene and adds at most one |
| CerebrumNeuroevolution.Neuroevolution.AddBias | Javascript/Cerebrum/src/Neuroevolution.js:86-93 | the bias push for one node is the one BiasOf describes |
| CerebrumNeuroevolution.Neuroevolution.PointMutate | Javascript/Cerebrum/src/Neuroevolution.js:133-144 | the weight moves by a draw-scaled step only for a draw below modifyWeight; a draw below disableGene disables the gene, else one below enableGene enables it; nothing else in the gene changes; the result is `PointMutated` of the draws |
| CerebrumNeuroevolution.Neuroevolution.PointMutateAll | Javascript/Cerebrum/src/Neuroevolution.js:97 | the genes become `PointMutatedAll` of the old genes: gene `j` is `pointMutate` of old gene `j` on the draws after those of the genes before it; the count is kept and each weight moves by at most weightMutationStep |
| CerebrumNeuroevolution.Neuroevolution.LinkStep | Javascript/Cerebrum/src/Neuroevolution.js:59-61 | the draw against createConnection and `linkMutate` below it give `LinkStepOf` |
| CerebrumNeuroevolution.Neuroevolution.MutateTail | Javascript/Cerebrum/src/Neuroevolution.js:83-97 | the bias step then the point mutation give `TailOf` over the network chosen for the bias step |
| CerebrumNeuroevolution.Neuroevolution.MutateGenome | Javascript/Cerebrum/src/Neuroevolution.js:56-98 | the genome, draws, innovation table and counter after one turn of the `forEach` are those of `MutatedGenome`: the link step, the node split, the bias step, then the point mutation of every gene |
| CerebrumNeuroevolution.Neuroevolution.Mutate | Javascript/Cerebrum/src/Neuroevolution.js:55-99 | the population, draws, table and counter are `MutatedAll` of the old population: genome `i` is `MutatedGenome` of old genome `i`, with the trail left by genome `i - 1`; sizes are kept, each genome keeps its existing innovations, and the table only gains numbers the counter hands out |
| CerebrumNeuroevolution.Neuroevolution.MutateAt | Javascript/Cerebrum/src/Neuroevolution.js:56-98 | one turn of the `forEach` extends the mutated prefix by `MutatedGenome` of the next genome and leaves the rest of the population untouched |
| CerebrumNeuroevolution.Neuroevolution.Crossover | Javascript/Cerebrum/src/Neuroevolution.js:146-175 | the child is the crossover of the two parents for the draws taken: one draw for the child's `new Genome`, then one per shared innovation |
| CerebrumNeuroevolution.Neuroevolution.MatchedGenes | Javascript/Cerebrum/src/Neuroevolution.js:158-166 | the first loop builds the front of the child and uses one draw per gene the second parent shares |
| CerebrumNeuroevolution.Neuroevolution.CloneGene | Javascript/Cerebrum/src/Neuroevolution.js:159-165 | a gene is replaced by the second parent's gene of the same innovation only when that gene exists and the draw is at least 0.5 |
| CerebrumNeuroevolution.Neuroevolution.UnmatchedGenes | Javascript/Cerebrum/src/Neuroevolution.js:168-172 | the second loop appends exactly the second parent's genes whose innovation the first parent lacks, in order |
| CerebrumNeuroevolution.Neuroevolution.MakeBaby | Javascript/Cerebrum/src/Neuroevolution.js:240-244 | the baby is the crossover of two genomes of the species, each picked by a weighted draw, with the crossover's draws starting after those two |
| CerebrumNeuroevolution.Neuroevolution.GetCompatibility | Javascript/Cerebrum/src/Neuroevolution.js:252-275 | the loops compute the compatibility distance: disjoint count and weight gaps, each scaled by its delta and divided by the larger gene count |
| CerebrumNeuroevolution.Neuroevolution.IsSameSpecies | Javascript/Cerebrum/src/Neuroevolution.js:277-279 | two genomes are of one species exactly when their distance is below the threshold |
| CerebrumNeuroevolution.Neuroevolution.FindSpecies | Javascript/Cerebrum/src/Neuroevolution.js:213-220 | the search returns the first species whose first genome is close enough, or the number of species |
| CerebrumNeuroevolution.Neuroevolution.Speciate | Javascript/Cerebrum/src/Neuroevolution.js:209-227 | the new species are the speciation of the population; each is fresh with average 0 |
| CerebrumNeuroevolution.Neuroevolution.SpeciesOf | Javascript/Cerebrum/src/Neuroevolution.js:212-226 | the loop builds distinct species whose genome lists are the speciation of the population |
| CerebrumNeuroevolution.Neuroevolution.JoinSpecies | Javascript/Cerebrum/src/Neuroevolution.js:212-226 | one turn adds the genome to the first matching species, or founds exactly one new species at the end |
| CerebrumNeuroevolution.Neuroevolution.CullSpecies | Javascript/Cerebrum/src/Neuroevolution.js:229-234 | every species is culled and the empty ones dropped; the survivors are old species |
| CerebrumNeuroevolution.Neuroevolution.CullEach | Javascript/Cerebrum/src/Neuroevolution.js:230-233 | the filter keeps distinct old species whose genome lists are the culled lists |
| CerebrumNeuroevolution.Neuroevolution.CullOne | Javascript/Cerebrum/src/Neuroevolution.js:231-232 | one turn of the filter culls one species and keeps it when it still has a genome |
| CerebrumNeuroevolution.Neuroevolution.CalculateSpeciesAvgFitness | Javascript/Cerebrum/src/Neuroevolution.js:236-238 | every species gets its average fitness and keeps its genomes |
| CerebrumNeuroevolution.Neuroevolution.RankSpecies | Javascript/Cerebrum/src/Neuroevolution.js:180-184 | the population is sorted fittest first, and the species are the culled speciation of the sorted population, each with its average |
| CerebrumNeuroevolution.Neuroevolution.SortPopulation | Javascript/Cerebrum/src/Neuroevolution.js:180 | the population becomes its fittest-first sort |
| CerebrumNeuroevolution.Neuroevolution.RankedFrom | Javascript/Cerebrum/src/Neuroevolution.js:184 | species whose averages are their own averages are ranked with those averages |
| CerebrumNeuroevolution.Neuroevolution.FormSpecies | Javascript/Cerebrum/src/Neuroevolution.js:182-184 | speciation, culling and averaging give the culled species of the population, each with its average |
| CerebrumNeuroevolution.Neuroevolution.SpeciesChildren | Javascript/Cerebrum/src/Neuroevolution.js:189-195 | a species makes childrenToMake children, its elite first, when childrenToMake is positive, and none otherwise |
| CerebrumNeuroevolution.Neuroevolution.MakeChildren | Javascript/Cerebrum/src/Neuroevolution.js:188-196 | the species loop makes the allocated number of children, and each species with a positive share contributes its elite |
| CerebrumNeuroevolution.Neuroevolution.Backfill | Javascript/Cerebrum/src/Neuroevolution.js:198-201 | the population is topped up to populationSize and the children already made stay at the front |
| CerebrumNeuroevolution.Neuroevolution.Evolve | Javascript/Cerebrum/src/Neuroevolution.js:177-207 | the generation grows by one and the innovation table restarts; the new population has populationSize genomes, or the allocated number when that is larger, and exactly populationSize for a positive total of non-negative averages; the species are its speciation |
| CerebrumNeuroevolution.Neuroevolution.Breed | Javascript/Cerebrum/src/Neuroevolution.js:180-201 | the next population has the allocated number of children, topped up to populationSize |
| CerebrumNeuroevolution.Neuroevolution.Renew | Javascript/Cerebrum/src/Neuroevolution.js:203-205 | the children become the population, which is mutated and then speciated |
| CerebrumNeuroevolution.Neuroevolution.GetElite | Javascript/Cerebrum/src/Neuroevolution.js:281-284 | the population is sorted, and the elite is a genome at least as fit as every other one; there is none only for an empty population |
| CerebrumNeuroevolution.Neuroevolution.CreateInitialPopulation | Javascript/Cerebrum/src/Neuroevolution.js:47-53 | there are populationSize genomes, each created with its identifier draw and then starting with one input-to-output link |
| TetrisBoard.EmptyRow | Javascript/Tetris/src/tetris.js:23 | a fresh row has the board width and only empty cells |
| TetrisBoard.Blank | Javascript/Tetris/src/tetris.js:23 | a fresh grid has the given number of rows, each of the board width, and every cell is empty |
| TetrisBoard.Rotated | Javascript/Tetris/src/tetris.js:12-16 | an r by c shape becomes a c by r shape whose row i is column i read bottom-up, a clockwise quarter turn |
| TetrisBoard.RotateTwice | Javascript/Tetris/src/tetris.js:12-16 | two turns keep the dimensions and read the shape backwards in both directions |
| TetrisBoard.RotateFourTimes | Javascript/Tetris/src/tetris.js:12-16 | four turns give back the original shape |
| TetrisBoard.RotatedHasBlock | Javascript/Tetris/src/tetris.js:12-16 | a turn keeps a shape's solid cells |
| TetrisBoard.Merged | Javascript/Tetris/src/tetris.js:43-51 | merging keeps the grid's dimensions |
| TetrisBoard.MergedKeepsFilled | Javascript/Tetris/src/tetris.js:43-51 | merging never empties a filled cell |
| TetrisBoard.MergedCovers | Javascript/Tetris/src/tetris.js:46-47 | every solid cell of the piece that lies on the grid takes the piece's colour |
| TetrisBoard.KeptRows | Javascript/Tetris/src/tetris.js:55-61 | the kept rows are not full, come from the grid, and together with the full rows make up the grid's height |
| TetrisBoard.NoFullRows | Javascript/Tetris/src/tetris.js:134-142 | a grid without a full row has no complete lines |
| TetrisBoard.ClearedHasNoFullRow | Javascript/Tetris/src/tetris.js:53-67 | after clearing, no row of a board at least one cell wide is full |
| TetrisBoard.AnyFilledExists | Javascript/Tetris/src/tetris.js:172-179 | the column scan finds a block exactly when some cell of the column is filled |
| TetrisBoard.SpanZero | Javascript/Tetris/src/tetris.js:172-179 | a column's height is 0 exactly when the column has no block |
| TetrisBoard.ColumnHeightTop | Javascript/Tetris/src/tetris.js:172-179 | the column height is the grid height minus the row of the topmost filled cell |
| TetrisBoard.ColumnHeightZero | Javascript/Tetris/src/tetris.js:172-179 | the column height is 0 exactly when every cell of the column is empty |
| TetrisBoard.HolesFillSpan | Javascript/Tetris/src/tetris.js:145-158 | in one column, holes plus filled cells equal the column height |
| TetrisBoard.NoHolesAboveTop | Javascript/Tetris/src/tetris.js:145-158 | a column has no holes and no filled cells above its top block |
| TetrisBoard.HolesFromHeights | Javascript/Tetris/src/tetris.js:125-158 | over the board, holes equal the total height minus the filled cells |
| TetrisBoard.TotalHeightZero | Javascript/Tetris/src/tetris.js:125-131 | the total height is 0 exactly when the board is empty |
| TetrisBoard.BumpinessZero | Javascript/Tetris/src/tetris.js:161-169 | the bumpiness is 0 exactly when every column has the height of the first |
| TetrisBoard.Piece.constructor | Javascript/Tetris/src/tetris.js:6-10 | a new piece has the given shape and colour at position (3, 0) |
| TetrisBoard.Piece.Rotate | Javascript/Tetris/src/tetris.js:12-16 | the piece's shape becomes its clockwise quarter turn |
| TetrisBoard.Board.constructor | Javascript/Tetris/src/tetris.js:20-24 | a new board has height rows of width empty cells |
| TetrisBoard.Board.Merge | Javascript/Tetris/src/tetris.js:43-51 | the grid becomes the merge of the piece; nothing else on the board changes |
| TetrisBoard.Board.MergedPieceBlocks | Javascript/Tetris/src/tetris.js:26-51 | once merged, a piece with a solid cell no longer fits where it was |
| TetrisBoard.Board.MergeRow | Javascript/Tetris/src/tetris.js:45-49 | the inner loop writes exactly the solid cells of one shape row |
| TetrisBoard.Board.ClearRows | Javascript/Tetris/src/tetris.js:53-67 | the full rows are dropped and counted, the others keep their order, and empty rows refill the top to the old height |
| TetrisBoard.SplitFull | Javascript/Tetris/src/tetris.js:55-61 | the filter keeps the non-full rows in order and counts the full ones |
| TetrisBoard.MergedUpTo | Javascript/Tetris/src/tetris.js:44-50 | merging part of the shape keeps the grid's dimensions |
| TetrisGame.Templates | Javascript/Tetris/src/tetris.js:181-191 | there are seven templates, each small enough to fit at the start position |
| TetrisGame.Pick | Javascript/Tetris/src/tetris.js:195 | a draw in [0, 1) picks one of the seven templates |
| TetrisGame.StartEncloses | Javascript/Tetris/src/tetris.js:6-10 | a template at the start position lies on a 10 by 20 board |
| TetrisGame.EmptyBoardFits | Javascript/Tetris/src/tetris.js:26-37 | on an empty board, a shape that lies on the board fits |
| TetrisGame.SpeedStaysPositive | Javascript/Tetris/src/tetris.js:386-387 | the speed stays positive and never grows |
| TetrisGame.Game.constructor | Javascript/Tetris/src/tetris.js:75-92 | an empty 10 by 20 board, the first two random pieces, score 0, speed 500 and a running game; the current piece fits |
| TetrisGame.Game.RandomPiece | Javascript/Tetris/src/tetris.js:193-200 | the new piece is a fresh piece at (3, 0) copied from the waiting template, and the draw picks the next template |
| TetrisGame.Game.Move | Javascript/Tetris/src/tetris.js:321-325 | the piece moves sideways by the direction exactly when it fits there; nothing else changes |
| TetrisGame.Game.Rotate | Javascript/Tetris/src/tetris.js:327-333 | the piece takes its turned shape exactly when the turned shape fits, else keeps its shape |
| TetrisGame.Game.Drop | Javascript/Tetris/src/tetris.js:335-341 | a piece that fits one row lower moves down one row; otherwise it is locked |
| TetrisGame.Game.LockPiece | Javascript/Tetris/src/tetris.js:343-355 | the piece is merged, full rows are cleared and scored, the next piece comes in at (3, 0), and the game ends exactly when that piece does not fit |
| TetrisGame.Game.NextTurn | Javascript/Tetris/src/tetris.js:347-354 | the next piece comes in at (3, 0), and the game is over exactly when it does not fit |
| TetrisGame.Game.Settle | Javascript/Tetris/src/tetris.js:344-345 | the board becomes the cleared merge of the piece, and the number of cleared rows is returned |
| TetrisGame.Game.IncreaseScore | Javascript/Tetris/src/tetris.js:384-394 | the score grows by the cleared rows, and the speed is divided by ten when that lands on a multiple of 500 |
| TetrisGame.Game.EndGame | Javascript/Tetris/src/tetris.js:371-376 | the game is over |
| TetrisGame.Game.GetColumnHeight | Javascript/Tetris/src/tetris.js:172-179 | the loop returns the column height |
| TetrisGame.Game.CalculateTotalHeight | Javascript/Tetris/src/tetris.js:125-131 | the loop returns the sum of the column heights |
| TetrisGame.Game.CalculateCompleteLines | Javascript/Tetris/src/tetris.js:134-142 | the loop returns the number of full rows |
| TetrisGame.Game.CalculateHoles | Javascript/Tetris/src/tetris.js:145-158 | the loop returns the number of empty cells below a block |
| TetrisGame.Game.CalculateBumpiness | Javascript/Tetris/src/tetris.js:161-169 | the loop returns the sum of height differences of neighbouring columns |
| TetrisAi.EvaluationByDimensions | Javascript/Tetris/src/aicontroller.js:7-74 | a board without width and height scores 0 whatever its cells; one with them scores by the same features as the game |
| TetrisAi.IsInsideBoardIsInside | Javascript/Tetris/src/aicontroller.js:147-162 | the AI's fit test on a copy of the grid is the board's isInside |
| TetrisAi.Translated | Javascript/Tetris/src/aicontroller.js:122-127 | the anchor moves by the direction exactly when the new column lies on the board; nothing else changes |
| TetrisAi.InsideBelowBounded | Javascript/Tetris/src/aicontroller.js:130 | a piece that fits one row lower is above the bottom row |
| TetrisAi.Landing | Javascript/Tetris/src/aicontroller.js:130-132 | the drop loop stops at or below the start row, where the piece no longer fits one row lower |
| TetrisAi.LockedShape | Javascript/Tetris/src/aicontroller.js:137-145 | locking keeps the grid's dimensions |
| TetrisAi.RotatedFixed | Javascript/Tetris/src/aicontroller.js:114-120 | with a working rotate, the turn is kept only when it fits, and position and colour stay |
| TetrisAi.Turned | Javascript/Tetris/src/aicontroller.js:105 | repeated turns keep the piece's position, colour and solid cells |
| TetrisAi.Simulated | Javascript/Tetris/src/aicontroller.js:99-112 | an intended simulation that succeeds gives a grid of the board's height |
| TetrisAi.Candidate | Javascript/Tetris/src/aicontroller.js:82-83 | each candidate has a rotation in [0, 3] and a translation in [-5, 5] |
| TetrisAi.Scores | Javascript/Tetris/src/aicontroller.js:82-84 | the candidates' scores, in loop order |
| TetrisAi.SearchStep | Javascript/Tetris/src/aicontroller.js:84-88 | trying one more candidate: a strictly higher score takes over, any other keeps the best |
| TetrisAi.SearchDone | Javascript/Tetris/src/aicontroller.js:77-92 | after all candidates, the best move is the first candidate of the highest score |
| TetrisAi.AIController.GetColumnHeight | Javascript/Tetris/src/aicontroller.js:67-74 | the loop returns the column height of the board passed in |
| TetrisAi.AIController.CalculateTotalHeight | Javascript/Tetris/src/aicontroller.js:17-30 | the inline scan returns the total height, 0 when the board has no width |
| TetrisAi.AIController.CalculateCompleteLines | Javascript/Tetris/src/aicontroller.js:32-40 | the loop returns the number of full rows, 0 when the board has no height |
| TetrisAi.AIController.CalculateHoles | Javascript/Tetris/src/aicontroller.js:42-55 | the loop returns the number of holes |
| TetrisAi.AIController.CalculateBumpiness | Javascript/Tetris/src/aicontroller.js:57-65 | the loop returns the bumpiness, 0 when the board has no width |
| TetrisAi.AIController.EvaluateBoard | Javascript/Tetris/src/aicontroller.js:7-15 | the score is the weighted heuristic of the four features of the board passed in, 0 for a board without dimensions |
| TetrisAi.AIController.DropPiece | Javascript/Tetris/src/aicontroller.js:129-135 | the piece drops to its landing row, is lifted back one row, and is locked |
| TetrisAi.AIController.LockPiece | Javascript/Tetris/src/aicontroller.js:137-145 | the lock writes the colour only at solid cells, and throws exactly when a solid cell's row is off the grid |
| TetrisAi.AIController.LockRow | Javascript/Tetris/src/aicontroller.js:139-143 | one shape row is locked, or the lock throws exactly when a solid cell of the row is off the grid |
| TetrisAi.AIController.RotatePiece | Javascript/Tetris/src/aicontroller.js:114-116 | the copied piece has no rotate method, so the call throws |
| TetrisAi.AIController.SimulateGameState | Javascript/Tetris/src/aicontroller.js:99-112 | any rotation throws; without one the copy is translated, dropped and locked, and the result has no width or height |
| TetrisAi.AIController.EvaluateMove | Javascript/Tetris/src/aicontroller.js:94-97 | any rotation throws, and every other score is 0 |
| TetrisAi.AIController.FindBestMove | Javascript/Tetris/src/aicontroller.js:77-92 | the search always throws, at rotation 1 at the latest |
| TetrisAi.AIController.SimulateFixed | Javascript/Tetris/src/aicontroller.js:99-112 | the intended simulation: turn, translate, drop and lock a copy on a board that keeps its dimensions |
| TetrisAi.AIController.TurnPiece | Javascript/Tetris/src/aicontroller.js:105 | the rotation loop gives the piece after that many intended turns |
| TetrisAi.AIController.EvaluateMoveFixed | Javascript/Tetris/src/aicontroller.js:94-97 | the intended score of candidate k |
| TetrisAi.AIController.ScoreCandidate | Javascript/Tetris/src/aicontroller.js:84 | the evaluation of candidate k is its score in the list |
| TetrisAi.AIController.Keep | Javascript/Tetris/src/aicontroller.js:85-88 | one candidate extends the search |
| TetrisAi.AIController.TryTranslations | Javascript/Tetris/src/aicontroller.js:83-89 | a rotation's translations extend the search by eleven candidates, or one of them throws |
| TetrisAi.AIController.TryTranslation | Javascript/Tetris/src/aicontroller.js:84-88 | one candidate either throws or extends the search by one, kept when it beats the best so far |
| TetrisAi.AIController.FindBestMoveFixed | Javascript/Tetris/src/aicontroller.js:77-92 | the intended search returns the first candidate with the highest score, or throws when a candidate throws |
| RustNeat.NextSeed | Rust/neat/src/main.rs:21 | the new seed is below 2^32 and congruent to 1664525 * seed + 1013904223 modulo 2^32 |
| RustNeat.SmallSeedNoOverflow | Rust/neat/src/main.rs:21 | a seed below 2^32 cannot overflow the u64 intermediate |
| RustNeat.LargeSeedOverflows | Rust/neat/src/main.rs:11-21 | the largest u64 seed does overflow it, so only an initial seed can |
| RustNeat.SeedAfter | Rust/neat/src/main.rs:62 | every seed a generator made with seed 42 reaches is below 2^32 |
| RustNeat.SeedAfterBelowMax | Rust/neat/src/main.rs:22 | those seeds are at most u32::MAX, so each draw of next_f64 lies in [0, 1] |
| RustNeat.UnitRange | Rust/neat/src/main.rs:25-27 | gen_range(-1, 1) of a reachable seed lies in [-1, 1] |
| RustNeat.Draw | Rust/neat/src/main.rs:66 | every draw of initialize_weights lies in [-1, 1] |
| RustNeat.RowStartIsProduct | Rust/neat/src/main.rs:64-69 | hidden neuron i starts after i * (input_size + 1) draws |
| RustNeat.RowStartMonotone | Rust/neat/src/main.rs:64-69 | the draws of one hidden neuron end before those of any later one begin |
| RustNeat.DrawsDistinct | Rust/neat/src/main.rs:61-75 | no two parameters share a draw, and the output weights and then the output bias come after all hidden parameters |
| RustNeat.SimpleRng.constructor | Rust/neat/src/main.rs:15-17 | the generator stores the seed unchanged |
| RustNeat.SimpleRng.NextF64 | Rust/neat/src/main.rs:19-23 | the seed takes one LCG step and stays below 2^32; the method returns the new seed, the numerator of the f64 `next_f64` returns (the division by u32::MAX is `UnitRange`); the caller's seed must not overflow the u64 intermediate |
| RustNeat.DrawnRow | Rust/neat/src/main.rs:65-67 | the n values drawn after a given number of draws are the next n draws, in order |
| RustNeat.DrawValues | Rust/neat/src/main.rs:65-67 | n calls of gen_range give the next n draws and advance the seed past them |
| RustNeat.HiddenRows | Rust/neat/src/main.rs:51 | the input-to-hidden matrix has hidden_size rows of input_size weights |
| RustNeat.HiddenBiases | Rust/neat/src/main.rs:53 | there is one hidden bias per hidden neuron |
| RustNeat.HiddenRowsAt | Rust/neat/src/main.rs:66 | weight (i, j) is the draw the loop order gives it |
| RustNeat.HiddenBiasesAt | Rust/neat/src/main.rs:68 | hidden bias i is the draw after neuron i's weights |
| RustNeat.DrawHidden | Rust/neat/src/main.rs:64-69 | the hidden loop fills every weight and bias with its draw and leaves the generator after all of them |
| RustNeat.NeuralNetwork.constructor | Rust/neat/src/main.rs:47-59 | the network keeps its sizes and learning rate, and every parameter holds its draw from the fixed seed 42, so construction is deterministic |
| RustNeat.NeuralNetwork.InitializeWeights | Rust/neat/src/main.rs:61-75 | initialisation sets every parameter to its draw from seed 42 and changes nothing else |
| RustNeat.NeuralNetwork.DrawAll | Rust/neat/src/main.rs:62-74 | the draws from seed 42, in order, are the hidden rows and biases, then the output row, then the output bias |
| RustNeat.InitialisedParameters | Rust/neat/src/main.rs:61-75 | each single weight and bias of a constructed network is its own draw |
| NeatConnection.IndexOf | Javascript/NeatJS/src/architecture/node.js:282 | indexOf gives -1 exactly when the element is absent, and otherwise its first position |
| NeatConnection.SpliceAt | Javascript/NeatJS/src/architecture/node.js:283 | splice(i, 1) removes position i, removes the last element for -1, and removes nothing past the end |
| NeatConnection.RemoveFirst | Javascript/NeatJS/src/architecture/node.js:282-283 | removing the first occurrence of a present element removes exactly one copy of it |
| NeatConnection.NewConnection | Javascript/NeatJS/src/architecture/connection.js:4-24 | a new connection joins the two nodes with gain 1, no gater and empty traces; an undefined weight becomes a draw in [-0.1, 0.1) |
| NeatConnection.ToJSON | Javascript/NeatJS/src/architecture/connection.js:29-35 | the JSON of a connection holds its weight |
| NeatConnection.TriClosed | Javascript/NeatJS/src/architecture/connection.js:42 | the triangular part of the innovation formula is n(n+1)/2 |
| NeatConnection.InnovationIDIsPair | Javascript/NeatJS/src/architecture/connection.js:41-43 | the innovation number of two node indices is the Cantor pair of the indices, a natural number |
| NeatConnection.PairInjective | Javascript/NeatJS/src/architecture/connection.js:41-43 | the Cantor pair of two naturals determines both of them |
| NeatConnection.InnovationIDInjective | Javascript/NeatJS/src/architecture/connection.js:41-43 | distinct pairs of node indices never share an innovation number |
| NeatNode.SquashByName | Javascript/NeatJS/src/architecture/node.js:430 | a squash found by name carries that name; an unknown name finds none |
| NeatNode.SquashNameRoundTrip | Javascript/NeatJS/src/architecture/node.js:417-430 | looking a function up by its own name finds it again |
| NeatNode.InitialNode | Javascript/NeatJS/src/architecture/node.js:9-40 | an input node has bias 0 and any other a bias draw in [-0.1, 0.1); a missing or empty type becomes hidden; squash LOGISTIC, mask 1, no connections and zero state |
| NeatNode.FirstOutTo | Javascript/NeatJS/src/architecture/node.js:385-390 | the scan finds the first out-connection to the target, or -1 exactly when there is none |
| NeatNode.NotProjecting | Javascript/NeatJS/src/architecture/node.js:382-392 | a node does not project to another node exactly when none of its out-connections reaches it |
| NeatNode.Connected | Javascript/NeatJS/src/architecture/node.js:249-253 | connecting two different nodes appends one new connection to the arena, to the source's out-list and to the target's in-list, and changes nothing else |
| NeatNode.SelfConnected | Javascript/NeatJS/src/architecture/node.js:238-245 | a self-connection changes no list, only the self weight |
| NeatNode.AfterConnect | Javascript/NeatJS/src/architecture/node.js:234-267 | connecting keeps the node count and never removes a connection |
| NeatNode.GateOne | Javascript/NeatJS/src/architecture/node.js:303-306 | gating one connection keeps the node and connection counts |
| NeatNode.UngateOne | Javascript/NeatJS/src/architecture/node.js:319-324 | ungating one connection keeps the node and connection counts, even when indexOf gives -1 and the last gated entry is dropped |
| NeatNode.GateList | Javascript/NeatJS/src/architecture/node.js:297-308 | gating a list keeps the node and connection counts |
| NeatNode.UngateList | Javascript/NeatJS/src/architecture/node.js:313-326 | ungating a list keeps the node and connection counts |
| NeatNode.UngateLast | Javascript/NeatJS/src/architecture/node.js:318 | ungate handles the connections from the last to the first |
| NeatNode.DisconnectedOne | Javascript/NeatJS/src/architecture/node.js:278-287 | disconnecting another node keeps the node and connection counts |
| NeatNode.Unlinked | Javascript/NeatJS/src/architecture/node.js:281-283 | the two splices leave the connection arena unchanged |
| NeatNode.SelfDisconnected | Javascript/NeatJS/src/architecture/node.js:273-275 | disconnecting a node from itself only zeroes its self weight |
| NeatNode.Disconnected | Javascript/NeatJS/src/architecture/node.js:272-292 | disconnect, one- or two-sided, keeps the node and connection counts |
| NeatNode.ClearedNode | Javascript/NeatJS/src/architecture/node.js:347-348 | clearing zeroes the node's error and activation state and keeps its connections, bias, squash, type and mask |
| NeatNode.NextSquash | Javascript/NeatJS/src/architecture/node.js:364-370 | with a non-empty allowed list the new squash is one of the allowed ones |
| NeatNode.StepBelow | Javascript/NeatJS/src/architecture/node.js:367 | the random step lies in [0, len - 1) |
| NeatNode.NextSquashChanges | Javascript/NeatJS/src/architecture/node.js:362-371 | with at least two distinct allowed functions, MOD_ACTIVATION always picks a different squash |
| NeatNode.PickOther | Javascript/NeatJS/src/architecture/node.js:366-368 | a step of 1 to len - 1 positions never lands on the starting position |
| NeatNode.NodeToJSON | Javascript/NeatJS/src/architecture/node.js:413-420 | toJSON throws exactly when the squash is undefined, and otherwise records bias, type, squash name and mask |
| NeatNode.NodeFromJSON | Javascript/NeatJS/src/architecture/node.js:425-433 | fromJSON takes bias, type and mask from the JSON and the squash by name, with no connections |
| NeatNode.NodeJSONRoundTrip | Javascript/NeatJS/src/architecture/node.js:413-433 | fromJSON of toJSON has the bias, type, squash and mask of the node |
| NeatNode.Graph.constructor | Javascript/NeatJS/src/architecture/node.js:9 | the node arena starts empty |
| NeatNode.Graph.NewNode | Javascript/NeatJS/src/architecture/node.js:9-40 | a new node is appended with its own zero-weight self-connection |
| NeatNode.Graph.IsProjectingTo | Javascript/NeatJS/src/architecture/node.js:382-392 | the loop answers whether the node has an out-connection to the target, or a non-zero self weight for itself |
| NeatNode.Graph.IsProjectedBy | Javascript/NeatJS/src/architecture/node.js:397-408 | the loop answers whether the node has an in-connection from the other node, or a non-zero self weight for itself |
| NeatNode.Graph.Connect | Javascript/NeatJS/src/architecture/node.js:234-254 | a self-connect returns the self connection with weight `weight \|\| 1` if it was 0; connecting to a node already projected to throws and changes nothing; otherwise a new connection is made and returned |
| NeatNode.Graph.Gate | Javascript/NeatJS/src/architecture/node.js:297-308 | every listed connection is gated by the node, in order |
| NeatNode.Graph.Ungate | Javascript/NeatJS/src/architecture/node.js:313-326 | every listed connection is ungated, from the last to the first |
| NeatNode.Graph.UngateStep | Javascript/NeatJS/src/architecture/node.js:319-324 | one connection leaves the gated list and gets no gater and gain 1 |
| NeatNode.Graph.Disconnect | Javascript/NeatJS/src/architecture/node.js:272-292 | the store becomes the one Disconnected describes |
| NeatNode.Graph.DisconnectOne | Javascript/NeatJS/src/architecture/node.js:278-287 | the first connection to the other node leaves both lists and is ungated |
| NeatNode.Graph.Unlink | Javascript/NeatJS/src/architecture/node.js:281-283 | the connection leaves the source's out-list and the target's in-list |
| NeatNode.Graph.Clear | Javascript/NeatJS/src/architecture/node.js:331-349 | the node is cleared, its incoming connections lose their traces and its gated connections get gain 0 |
| NeatNode.Graph.Mutate | Javascript/NeatJS/src/architecture/node.js:354-377 | an undefined or unknown method throws; MOD_ACTIVATION picks another allowed squash; MOD_BIAS adds a draw in [min, max) to the bias; connections never change |
| NeatNode.Graph.NewNodeFromJSON | Javascript/NeatJS/src/architecture/node.js:425-433 | a node built from JSON is appended with its zero-weight self-connection |
| NeatNode.ConnectThenDisconnect | Javascript/NeatJS/src/architecture/node.js:249-287 | connecting and then disconnecting two different nodes gives back every node's lists |
| NeatNode.NewConnectionFirst | Javascript/NeatJS/src/architecture/node.js:249-280 | the new connection is the first one from the source to the target |
| NeatNode.UnlinkNew | Javascript/NeatJS/src/architecture/node.js:250-283 | unlinking the last appended connection gives the lists back |
| NeatNode.GateThenUngate | Javascript/NeatJS/src/architecture/node.js:297-326 | gating and then ungating a connection gives back every node and leaves the connection without gater and with gain 1 |
| NeatMutation.ScaleBelow | Javascript/NeatJS/src/architecture/network.js:307 | a draw in [0, 1) times n lies in [0, n) |
| NeatMutation.Pick | Javascript/NeatJS/src/architecture/network.js:307 | Math.floor(r * n) is an index below n when n is positive |
| NeatMutation.Drawn | Javascript/NeatJS/src/architecture/network.js:334 | Math.floor(r * span + low) lies in [low, low + span) for a positive span, and may fall below low for a negative one |
| NeatMutation.NegativeScale | Javascript/NeatJS/src/architecture/network.js:334 | a negative span scaled by a draw lands in (span, 0] |
| NeatMutation.SpliceStart | Javascript/NeatJS/src/architecture/network.js:316 | splice inserts at start when it is in range, counts a negative start from the end, and clamps at both ends |
| NeatMutation.InsertAt | Javascript/NeatJS/src/architecture/network.js:316 | the inserted element sits at the position, the entries before it are kept, and the rest move up by one |
| NeatMutation.InsertKeepsTail | Javascript/NeatJS/src/architecture/network.js:315-316 | inserting at or before the last m entries keeps them last |
| NeatMutation.NewNodeAt | Javascript/NeatJS/src/architecture/network.js:315 | the insertion position of the new node lies within the node list |
| NeatMutation.NewNodeKeepsOutputs | Javascript/NeatJS/src/architecture/network.js:311-316 | when the target is a node of the network, the outputs stay the last entries |
| NeatMutation.NewNodeMissingTarget | Javascript/NeatJS/src/architecture/network.js:311-316 | when indexOf gives -1, the new node lands just before the last entry |
| NeatMutation.ForwardStep | Javascript/NeatJS/src/architecture/network.js:345-348 | one step of the inner loop offers the pair exactly when the source does not project to the target |
| NeatMutation.ForwardRowEnd | Javascript/NeatJS/src/architecture/network.js:343-345 | a row ends and the next starts at max(i + 1, input) |
| NeatMutation.ForwardSound | Javascript/NeatJS/src/architecture/network.js:341-349 | every pair offered is a forward pair (source before target, source not an output, target not an input) whose source does not project to its target |
| NeatMutation.ForwardComplete | Javascript/NeatJS/src/architecture/network.js:341-349 | every such forward pair is offered |
| NeatMutation.BackwardStep | Javascript/NeatJS/src/architecture/network.js:468-471 | one step of the inner loop offers the pair exactly when the source does not project to the target |
| NeatMutation.BackwardRowEnd | Javascript/NeatJS/src/architecture/network.js:466-468 | a row ends and the next starts again at input |
| NeatMutation.BackwardSound | Javascript/NeatJS/src/architecture/network.js:464-472 | every pair offered is a backward pair of non-input nodes whose source does not project to its target |
| NeatMutation.BackwardComplete | Javascript/NeatJS/src/architecture/network.js:464-472 | every such backward pair is offered |
| NeatMutation.DroppableInExact | Javascript/NeatJS/src/architecture/network.js:362-366 | the filter keeps exactly the connections whose ends have other links and that run forward (or backward) |
| NeatMutation.SelfFree | Javascript/NeatJS/src/architecture/network.js:411 | the filter keeps exactly the nodes whose self weight is 0 |
| NeatMutation.Ungated | Javascript/NeatJS/src/architecture/network.js:437 | the filter keeps exactly the connections without a gater |
| NeatNetwork.FirstLink | Javascript/NeatJS/src/architecture/network.js:147-153 | the position `disconnect` finds is -1 exactly when no entry of the list runs from `from` to `to`; otherwise the entry there matches and none before it does |
| NeatNetwork.ConnectKeepsProjection | Javascript/NeatJS/src/architecture/network.js:126-139 | connecting two nodes keeps every projection that held before |
| NeatNetwork.GateKeepsProjection | Javascript/NeatJS/src/architecture/network.js:162-171 | gating a connection keeps every projection that held before |
| NeatNetwork.FreshTarget | Javascript/NeatJS/src/architecture/network.js:36-39 | no node already in the arena projects to a node created after it |
| NeatNetwork.FreshStep | Javascript/NeatJS/src/architecture/network.js:42-47 | connecting two created nodes leaves their types and biases as they were |
| NeatNetwork.WiredStep | Javascript/NeatJS/src/architecture/network.js:42-47 | input `i` does not yet project to output `j` when the inner loop reaches it, and connecting them extends the wired prefix by one pair, with the `q`-th weight draw on the `q`-th connection |
| NeatNetwork.WiredNextRow | Javascript/NeatJS/src/architecture/network.js:42-47 | a fully wired input row carries over to the start of the next row |
| NeatNetwork.MadeStep | Javascript/NeatJS/src/architecture/network.js:36-39 | each round of the node loop appends an input node (the first `input` rounds) or an output node with bias drawn as `d(k) * 0.2 - 0.1` |
| NeatNetwork.MadeAll | Javascript/NeatJS/src/architecture/network.js:36-39 | after the node loop the first `input` nodes are inputs and the rest outputs, all fresh and unconnected |
| NeatNetwork.WiredAll | Javascript/NeatJS/src/architecture/network.js:42-47 | after the wiring loops there are `input * output` connections, each from an input node to an output node, and every input projects to every output |
| NeatNetwork.WithList | Javascript/NeatJS/src/architecture/network.js:145 | replacing the list `disconnect` searches (selfconns for a self-connection, connections otherwise) leaves the other list and every other field alone |
| NeatNetwork.NetUngate | Javascript/NeatJS/src/architecture/network.js:176-184 | ungating throws exactly when the connection is missing from `gates` or has no gater; otherwise its gater ungates it and exactly one occurrence leaves `gates` |
| NeatNetwork.UngateOneFrame | Javascript/NeatJS/src/architecture/network.js:183 | ungating one connection changes no node's in, out or self lists, only shrinks `gated`, and leaves every other connection as it was, the ungated one with gain 1 |
| NeatNetwork.NetGate | Javascript/NeatJS/src/architecture/network.js:162-171 | gating throws exactly when the node is not in the network; an already gated connection is left as it is; otherwise the node becomes its gater and it is appended to `gates` and to the node's `gated` list |
| NeatNetwork.NetGateThenUngate | Javascript/NeatJS/src/architecture/network.js:162-184 | gating an ungated connection and then ungating it succeeds and gives back `gates` and every node's lists |
| NeatNetwork.NetUnlist | Javascript/NeatJS/src/architecture/network.js:144-156 | the list half of `disconnect` keeps every index in the arena, changes no field but the three lists, and changes nothing when no listed connection runs from `from` to `to` |
| NeatNetwork.NetDisconnect | Javascript/NeatJS/src/architecture/network.js:144-157 | `disconnect` throws exactly when its list half throws, keeps every index in the arena and changes no field but the three lists |
| NeatNetwork.FirstLinkAppended | Javascript/NeatJS/src/architecture/network.js:147-153 | a list with no `from`-`to` entry, extended by a new `from`-`to` connection, finds the new entry at its end |
| NeatNetwork.NetConnectThenDisconnect | Javascript/NeatJS/src/architecture/network.js:126-157 | connecting two unconnected nodes and then disconnecting them succeeds and gives back the network's lists and every node of the arena |
| NeatNetwork.UngateLive | Javascript/NeatJS/src/architecture/network.js:238-240 | the ungate loop of `remove` as written, over the live `gated` list, keeps the arena's size |
| NeatNetwork.UngateCopy | Javascript/NeatJS/src/architecture/network.js:238-240 | the same loop over a copy of the list keeps the arena's size |
| NeatNetwork.UngateCopyUngates | Javascript/NeatJS/src/architecture/network.js:238-240 | when the loop over a copy completes, every connection it visited is ungated and no ungated connection became gated |
| NeatNetwork.UngateHead | Javascript/NeatJS/src/architecture/network.js:176-184 | ungating the head of a node's `gated` list leaves the rest of that list, every other connection, and every other entry of `gates` in place |
| NeatNetwork.UngateLiveSkips | Javascript/NeatJS/src/architecture/network.js:238-240 | for a node gating two connections, the loop as written ungates the first and skips the second, which stays gated by the node |
| NeatNetwork.UngateCopyClears | Javascript/NeatJS/src/architecture/network.js:238-240 | on the same input the loop over a copy ungates both connections and empties the node's `gated` list |
| NeatNetwork.NetUngateKeeps | Javascript/NeatJS/src/architecture/network.js:174-184 | `ungate` of a gated connection cannot throw under `GatesKept` (the connection is in `gates`) and keeps the bookkeeping |
| NeatNetwork.NetGateKeeps | Javascript/NeatJS/src/architecture/network.js:160-171 | `gate` by a node in `nodes` cannot throw and keeps `GatesKept`: an ungated connection becomes gated, listed by its gater and appended to `gates` |
| NeatNetwork.NetUnlistKeeps | Javascript/NeatJS/src/architecture/network.js:144-153 | the list half of `disconnect` cannot throw under `GatesKept` and keeps it |
| NeatNetwork.NetDisconnectKeeps | Javascript/NeatJS/src/architecture/network.js:143-156 | `disconnect` cannot throw under `GatesKept` and keeps it |
| NeatNetwork.AfterConnectKeeps | Javascript/NeatJS/src/architecture/network.js:126-139 | `connect` keeps `GatesKept` |
| NeatNetwork.UngateCopyEmpties | Javascript/NeatJS/src/architecture/network.js:238-240 | under `GatesKept`, the loop over a copy of a repeat-free list of connections the node gates, at least as long as its `gated` list, cannot throw, keeps the bookkeeping, and leaves the node gating nothing |
| NeatNetwork.UngateAllEmpties | Javascript/NeatJS/src/architecture/network.js:238-240 | under `GatesKept`, the loop over a copy of the node's own `gated` list cannot throw, keeps the bookkeeping and empties that list |
| NeatNetwork.SelfUnlinkClears | Javascript/NeatJS/src/architecture/network.js:242 | under `GatesKept`, `disconnect(node, node)` for a node gating nothing cannot throw, keeps the bookkeeping, and keeps the node's in- and out-lists |
| NeatNetwork.RemovedKeeps | Javascript/NeatJS/src/architecture/network.js:244 | a node that gates nothing can leave `nodes` with `GatesKept` kept |
| NeatNetwork.EndsAvoid | Javascript/NeatJS/src/architecture/network.js:198-218 | on a filed node the collected sources and targets never name the node itself, so the bridging leaves its own lists alone |
| NeatNetwork.SelfUnlinkZero | Javascript/NeatJS/src/architecture/network.js:242 | after `disconnect(node, node)` the node's self-connection has weight 0 |
| NeatNetwork.BridgedKept | Javascript/NeatJS/src/architecture/network.js:220-228 | a connect inside the bridging loop keeps every pair already bridged |
| NeatNetwork.BridgedNext | Javascript/NeatJS/src/architecture/network.js:222-226 | a pair that already projects counts as bridged without a connect |
| NeatNetwork.BridgedRow | Javascript/NeatJS/src/architecture/network.js:220-228 | a fully bridged input row carries over to the next input |
| NeatNetwork.Walk | Javascript/NeatJS/src/architecture/network.js:529-539 | the node walk of `toJSON` writes the positions of the nodes it visits into their `index` and yields the node objects and self-connection entries, or throws at the first node without a squash with the earlier positions written |
| NeatNetwork.Network.constructor | Javascript/NeatJS/src/architecture/network.js:18-48 | `input` input nodes then `output` output nodes, inputs with bias 0 and outputs with bias `d(k) * 0.2 - 0.1`; `input * output` connections, each from an input to an output with the `q`-th weight draw; every input projects to every output; no gates, no self-connections, dropout 0 |
| NeatNetwork.Network.CreateNodes | Javascript/NeatJS/src/architecture/network.js:36-39 | the node loop creates the input nodes then the output nodes, fresh in the arena, and changes no field but `nodes` |
| NeatNetwork.Network.ConnectAll | Javascript/NeatJS/src/architecture/network.js:42-47 | the wiring loops connect every input to every output and change no field but `connections` |
| NeatNetwork.Network.ConnectRow | Javascript/NeatJS/src/architecture/network.js:43-46 | one pass of the inner loop connects input `i` to every output |
| NeatNetwork.Network.ConnectStep | Javascript/NeatJS/src/architecture/network.js:44-45 | one connect of the constructor wires input `i` to output `j` |
| NeatNetwork.Network.Connect | Javascript/NeatJS/src/architecture/network.js:126-139 | the arena gets the nodes' connect; it throws exactly when two distinct nodes already project, changing no field; a self-connection is appended to `selfconns` and any other (the new arena entry) to `connections`; afterwards `from` projects to `to` |
| NeatNetwork.ConnectedKeepsLinked | Javascript/NeatJS/src/architecture/node.js:234-256 | connecting a node to another it did not project to keeps every node's in- and out-lists filed as `connect` files them (`InsLinked`, `OutsLinked`): each in-connection is its source's first connection to the node, sources and targets are pairwise distinct |
| NeatNetwork.GrownKeepsIns | Javascript/NeatJS/src/architecture/node.js:249-253 | appending a connection keeps every old in-list entry filed |
| NeatNetwork.GrownFilesNew | Javascript/NeatJS/src/architecture/node.js:246-253 | the appended connection is its source's first connection to the target when the source did not project to it |
| NeatNetwork.FirstOutToGrown | Javascript/NeatJS/src/architecture/node.js:382-390 | a store grown at the end finds the same first out-connection |
| NeatNetwork.NetDisconnectStep | Javascript/NeatJS/src/architecture/network.js:144-157 | disconnecting `a` from `b` when `a` has a connection to `b` keeps every connection's ends, drops the first such connection from `a`'s out-list and from `b`'s in-list, and keeps every other list |
| NeatNetwork.DisconnectedOneFrame | Javascript/NeatJS/src/architecture/node.js:272-292 | the node half of that disconnect changes only `a`'s out-list and `b`'s in-list |
| NeatNetwork.UnlinkedFrame | Javascript/NeatJS/src/architecture/node.js:278-287 | unlinking one connection splices it out of exactly those two lists |
| NeatNetwork.DisconnectLastIn | Javascript/NeatJS/src/architecture/network.js:201-207 | one round of the input loop on a filed in-list drops exactly its last entry and leaves the rest filed |
| NeatNetwork.DisconnectLastOut | Javascript/NeatJS/src/architecture/network.js:211-217 | one round of the output loop on a filed out-list drops exactly its last entry |
| NeatNetwork.InsLinkedDropLast | Javascript/NeatJS/src/architecture/network.js:201-207 | dropping the last in-connection, and no other out-list entry, keeps the rest of the in-list filed |
| NeatNetwork.InsDroppedStep | Javascript/NeatJS/src/architecture/network.js:200-208 | the input loop's invariant survives one round: the sources collected so far are those of the dropped suffix, last first |
| NeatNetwork.OutsDroppedStep | Javascript/NeatJS/src/architecture/network.js:210-218 | the output loop's invariant survives one round |
| NeatNetwork.InsDroppedAll | Javascript/NeatJS/src/architecture/network.js:200-208 | when the input loop ends, the collected sources are all the old in-list's, last first, and the in-list is empty |
| NeatNetwork.OutsDroppedAll | Javascript/NeatJS/src/architecture/network.js:210-218 | when the output loop ends, the collected targets are all the old out-list's, last first, and the out-list is empty |
| NeatNetwork.SelfDisconnectLinks | Javascript/NeatJS/src/architecture/network.js:198 | `disconnect(node, node)` keeps every list and every weight but the node's own self weight |
| NeatNetwork.SelfDisconnectKeepsProjection | Javascript/NeatJS/src/architecture/network.js:242 | it keeps every projection of a node whose self-connection is not the node's |
| NeatNetwork.WiringKeepsProjection | Javascript/NeatJS/src/architecture/node.js:382-391 | a step that changes only gating keeps every projection |
| NeatNetwork.NetUngateWiring | Javascript/NeatJS/src/architecture/network.js:176-184 | ungating changes only gating |
| NeatNetwork.NetGateWiring | Javascript/NeatJS/src/architecture/network.js:162-171 | gating changes only gating |
| NeatNetwork.NetUnlistWiring | Javascript/NeatJS/src/architecture/network.js:145-154 | the list half of `disconnect` changes only gating |
| NeatNetwork.UngateCopyWiring | Javascript/NeatJS/src/architecture/network.js:238-240 | the ungate loop over a copy changes only gating |
| NeatNetwork.LinkedKept | Javascript/NeatJS/src/architecture/network.js:198 | unchanged links keep both lists filed |
| NeatNetwork.BridgedPair | Javascript/NeatJS/src/architecture/network.js:220-240 | the `p`-th old source projects to the `q`-th old target once the collected ends are bridged and only gating changed since |
| NeatNetwork.RemoveBridged | Javascript/NeatJS/src/architecture/network.js:220-240 | after bridging, regating and ungating, every old source projects to every old target |
| NeatNetwork.RemoveSourcesApart | Javascript/NeatJS/src/architecture/network.js:200-240 | every old source of a filed node keeps a self-connection other than the node's |
| NeatNetwork.SelfDisconnectKeepsAll | Javascript/NeatJS/src/architecture/network.js:242 | `disconnect(node, node)` keeps every projection of every node whose self-connection is not the node's |
| NeatNetwork.BridgesKept | Javascript/NeatJS/src/architecture/network.js:242 | the closing self-disconnect keeps the bridging |
| NeatNetwork.DetachBridges | Javascript/NeatJS/src/architecture/network.js:198-242 | the steps of `remove` on a filed node leave every old source projecting to every old target |
| NeatNetwork.Network.Ungate | Javascript/NeatJS/src/architecture/network.js:176-184 | the new arena and `gates` are those of `NetUngate`; a throw leaves the arena unchanged; a connection in `gates` is spliced out of it even when the gater call then throws |
| NeatNetwork.Network.Gate | Javascript/NeatJS/src/architecture/network.js:162-171 | the new arena and `gates` are those of `NetGate`; a throw changes nothing |
| NeatNetwork.Network.Disconnect | Javascript/NeatJS/src/architecture/network.js:144-157 | the new arena and fields are those of `NetDisconnect`; a throw changes nothing |
| NeatNetwork.Network.Unlist | Javascript/NeatJS/src/architecture/network.js:145-154 | the new arena and fields are those of `NetUnlist`; a throw changes nothing |
| NeatNetwork.Network.SetList | Javascript/NeatJS/src/architecture/network.js:151 | the searched list is replaced and nothing else changes |
| NeatNetwork.Network.DropInputs | Javascript/NeatJS/src/architecture/network.js:200-208 | the input loop of `remove` collects, only when gates are kept, gaters other than the node itself, and changes no field but the three lists; for a node whose in-list is filed as `connect` files it, the collected sources are the old in-list's sources, last first, the in-list ends empty, the out-list and every connection's ends stay; on a filed in-list under `GatesKept` it cannot throw, keeps the bookkeeping, and every collected gater is in `nodes` |
| NeatNetwork.Network.DropIn | Javascript/NeatJS/src/architecture/network.js:201-207 | one round of the input loop: position `i` past the in-list throws; otherwise the source of connection `i` is recorded and, on a filed in-list, exactly that last connection is dropped; it throws only past the end or when `NetDisconnect` throws, and never on a filed in-list under `GatesKept`, which it keeps |
| NeatNetwork.Network.DropLink | Javascript/NeatJS/src/architecture/network.js:201-207 | one disconnect of the input or output loop: it throws exactly when `NetDisconnect` does and otherwise leaves its arena; the connection's other end is recorded, and its gater exactly when gates are kept and the gater is neither missing nor the node itself; when the gating bookkeeping (`GatesKept`: every gated connection is in `gates`, its gater is in `nodes` and lists it, and each node's `gated` list is repeat-free and names only connections it gates) held, it cannot throw, keeps the bookkeeping, and a recorded gater is in `nodes` |
| NeatNetwork.Network.DropOutputs | Javascript/NeatJS/src/architecture/network.js:210-218 | the output loop of `remove` collects, only when gates are kept, gaters other than the node itself; for a node whose out-list is filed as `connect` files it, the collected targets are the old out-list's targets, last first, the out-list ends empty and every connection's ends stay; on a filed out-list under `GatesKept` it cannot throw, keeps the bookkeeping, every collected gater is in `nodes`, and the in-list stays |
| NeatNetwork.Network.DropOut | Javascript/NeatJS/src/architecture/network.js:211-217 | one round of the output loop: position `i` past the out-list throws; otherwise the target of connection `i` is recorded and, on a filed out-list, exactly that last connection is dropped; it throws only past the end or when `NetDisconnect` throws, and never on a filed out-list under `GatesKept`, which it keeps |
| NeatNetwork.Network.Bridge | Javascript/NeatJS/src/architecture/network.js:220-228 | afterwards every collected input projects to every collected output; at most `inputs * outputs` connections are made, no node's self-connection and no field but `connections` and `selfconns` changes; a node outside the inputs keeps its out-list, one outside the outputs its in-list, and `GatesKept` is kept |
| NeatNetwork.Network.BridgeRow | Javascript/NeatJS/src/architecture/network.js:221-227 | one pass connects input `i` to every output it did not project to; only input `i`'s out-list and the outputs' in-lists change, and `GatesKept` is kept |
| NeatNetwork.Network.Regate | Javascript/NeatJS/src/architecture/network.js:230-236 | `gates` keeps its old entries and grows by at most one per kept gater, each new entry a connection made by the bridging loop; every link and weight stays (`SameWiring`); under `GatesKept`, with every gater in `nodes`, no `gate` throws and the bookkeeping is kept |
| NeatNetwork.Network.UngateAll | Javascript/NeatJS/src/architecture/network.js:238-240 | the node's gated connections are ungated as `UngateCopy` states, over a copy of the list, and every link and weight stays |
| NeatNetwork.Network.BridgeCell | Javascript/NeatJS/src/architecture/network.js:223-226 | one cell of the bridging: input `i` ends projecting to output `j`, at most one connection is made, only input `i`'s out-list and output `j`'s in-list change, and `GatesKept` is kept |
| NeatNetwork.Network.RegateOne | Javascript/NeatJS/src/architecture/network.js:234 | one `gate` of the gater loop: the wiring stays and `gates` grows by the connection at most; a throw changes nothing; under `GatesKept`, with the gater in `nodes`, it cannot throw and keeps the bookkeeping |
| NeatNetwork.Network.Release | Javascript/NeatJS/src/architecture/network.js:238-242 | the ungate loop and the closing self-disconnect of `remove`: only gating changes before the self-disconnect, which keeps every other node's projections, and the self-connection ends with weight 0; under `GatesKept` nothing throws, the bookkeeping is kept, the node gates nothing and its in- and out-lists stay |
| NeatNetwork.Network.Remove | Javascript/NeatJS/src/architecture/network.js:189-245 | a node outside the network throws with nothing changed; on success exactly one occurrence of the node leaves `nodes` (the spliced position), `input`, `output`, dropout and score stay, and, for a node whose lists are filed as `connect` files them, every old source projects to every old target; on success the node's self-connection has weight 0; for a node in `nodes`, filed, under `GatesKept`, `remove` cannot throw, keeps the bookkeeping, and the node ends with empty in-, out- and gated lists |
| NeatNetwork.Network.Detach | Javascript/NeatJS/src/architecture/network.js:198-242 | the steps of `remove` between the lookup and the splice keep the node list and change no field but the three connection lists; on a node filed as `connect` files it, every old source projects to every old target afterwards; on success the node's self-connection has weight 0; on a filed node under `GatesKept` it cannot throw, keeps the bookkeeping, and the node ends with empty in-, out- and gated lists |
| NeatNetwork.Network.Unwire | Javascript/NeatJS/src/architecture/network.js:198-218 | the self-disconnect and the two loops of `remove`: on a filed node the collected sources and targets are exactly the old ones, last first, and every connection keeps its ends; on a filed node under `GatesKept` it cannot throw, keeps the bookkeeping, every collected gater is in `nodes`, and the node's in- and out-lists end empty |
| NeatNetwork.Network.Unlink | Javascript/NeatJS/src/architecture/network.js:242 | the closing `disconnect(node, node)` keeps every projection of every node whose self-connection is not the node's; on success the node's self-connection has weight 0; under `GatesKept`, for a node gating nothing, it cannot throw, keeps the bookkeeping and the node's lists |
| NeatNetwork.Network.ForwardPairs | Javascript/NeatJS/src/architecture/network.js:341-349 | the candidate loops of `addConnMutation` yield exactly the forward pairs of `ForwardFrom`, those whose source does not project to its target, in loop order |
| NeatNetwork.Network.ForwardRow | Javascript/NeatJS/src/architecture/network.js:343-348 | one pass of the inner loop yields the row of `ForwardFrom` for source position `i` |
| NeatNetwork.Network.BackwardPairs | Javascript/NeatJS/src/architecture/network.js:464-472 | the candidate loops of `addBackConnMutation` yield exactly the backward pairs of `BackwardFrom`, in loop order |
| NeatNetwork.Network.BackwardRow | Javascript/NeatJS/src/architecture/network.js:466-471 | one pass of the inner loop yields the row of `BackwardFrom` for source position `i` |
| NeatNetwork.Network.AddConn | Javascript/NeatJS/src/architecture/network.js:341-356 | with no candidate pair nothing changes; otherwise the drawn pair, which did not project, is connected and now projects, the connection appended to `connections`; nothing throws |
| NeatNetwork.Network.AddBackConn | Javascript/NeatJS/src/architecture/network.js:464-479 | as `AddConn` over the backward pairs |
| NeatNetwork.Network.SubConn | Javascript/NeatJS/src/architecture/network.js:361-373 | with no droppable connection nothing changes; otherwise a droppable connection of `connections` is disconnected as `NetDisconnect` states |
| NeatNetwork.Network.SubSelfConn | Javascript/NeatJS/src/architecture/network.js:423-430 | with no self-connection nothing changes; otherwise the drawn self-connection is disconnected as `NetDisconnect` states |
| NeatNetwork.Network.ModWeight | Javascript/NeatJS/src/architecture/network.js:378-383 | throws exactly when there is no connection and no self-connection; otherwise only the drawn connection's weight changes, shifted by the drawn amount in [min, max) |
| NeatNetwork.Network.ModBias | Javascript/NeatJS/src/architecture/network.js:388-392 | throws exactly when the drawn position falls past the end of `nodes`; otherwise only the bias of the drawn non-input node changes, by the drawn amount |
| NeatNetwork.Network.ModActivation | Javascript/NeatJS/src/architecture/network.js:397-405 | without a mutable node nothing changes; a position past the end throws; otherwise only the drawn hidden (or, when allowed, output) node's squash changes, to the drawn other squash |
| NeatNetwork.Network.AddSelfConn | Javascript/NeatJS/src/architecture/network.js:410-418 | with no non-input node whose self-connection has weight 0 nothing changes; otherwise such a node's self-connection gets weight 1 and joins `selfconns`; no other connection changes |
| NeatNetwork.Network.AddGate | Javascript/NeatJS/src/architecture/network.js:435-446 | with no ungated connection nothing changes; a gater position past the end throws with nothing changed; otherwise an ungated connection is gated by a non-input node and appended to `gates` |
| NeatNetwork.Network.SubGate | Javascript/NeatJS/src/architecture/network.js:451-459 | with no gated connection nothing changes; otherwise the drawn one is ungated as `NetUngate` states, throwing when it has no gater |
| NeatNetwork.Network.Swap | Javascript/NeatJS/src/architecture/network.js:501-514 | with fewer than two mutable nodes nothing changes; otherwise two drawn hidden (or, when allowed, output) nodes exchange bias and squash and every other node stays as it was |
| NeatNetwork.Network.SubNode | Javascript/NeatJS/src/architecture/network.js:329-336 | with only input and output nodes nothing changes; a position outside `nodes` throws with nothing changed; otherwise a hidden node is removed, exactly one occurrence leaving `nodes`, and, when its lists are filed as `connect` files them, each of its old sources projects to each of its old targets; a drawn node that is filed, under `GatesKept`, is removed without a throw, with the bookkeeping kept and its in-, out- and gated lists empty |
| NeatNetwork.Network.AddNode | Javascript/NeatJS/src/architecture/network.js:306-324 | without connections it throws with nothing changed; otherwise a new hidden node is inserted at the position `NewNodeAt` gives (never past the outputs) and afterwards the old source projects to it and it projects to the old target |
| NeatNetwork.Network.Split | Javascript/NeatJS/src/architecture/network.js:309-323 | after the disconnect, the new hidden node is inserted before the outputs and wired between the old ends, the old gater gating one of the two new connections |
| NeatNetwork.Network.InsertHidden | Javascript/NeatJS/src/architecture/network.js:311-316 | the new node is a hidden node with the drawn bias and squash, appended to the arena, unreachable from `from`, and inserted into `nodes` at position `k` |
| NeatNetwork.Network.Wire | Javascript/NeatJS/src/architecture/network.js:318-323 | two new connections run from the source to the new node and from it to the target; gating by a gater outside the network throws, otherwise the gater gates one of them |
| NeatNetwork.Network.GateMade | Javascript/NeatJS/src/architecture/network.js:321-323 | the new connection is gated by `g` exactly when `g` is in the network, and the new node stays wired |
| NeatNetwork.Network.Link | Javascript/NeatJS/src/architecture/network.js:318-319 | the two connects of the new node append two ungated connections to `connections` and never throw |
| NeatNetwork.Network.ToJSON | Javascript/NeatJS/src/architecture/network.js:519-551 | the result is `Serialized` of the old arena and lists; only the nodes' `index` fields change, and on success each node's index is its position |
| NeatNetwork.Network.WalkNodes | Javascript/NeatJS/src/architecture/network.js:529-539 | the node walk on the arena yields `NodesJSON` and `SelfsJSON`, and writes back the positions visited |
| NeatNetwork.Network.ConnEntries | Javascript/NeatJS/src/architecture/network.js:542-548 | the connection entries are `ConnsJSON` of `connections` |
| NeatNetwork.Network.Mutate | Javascript/NeatJS/src/architecture/network.js:250-301 | a missing or uncatalogued method throws before any change; ADD_NODE without connections throws; MOD_WEIGHT throws exactly without connections; ADD_CONN, ADD_BACK_CONN, ADD_SELF_CONN and SWAP_NODES never throw; no operator changes `input` or `output`, and only the growing ones enlarge the arena |
| NeatNetwork.Network.Grow | Javascript/NeatJS/src/architecture/network.js:254-300 | the operators that add nodes or connections keep `input` and `output`; ADD_NODE without connections throws; ADD_CONN and ADD_BACK_CONN never throw |
| NeatNetwork.Network.Tune | Javascript/NeatJS/src/architecture/network.js:254-300 | the operators that add no nodes or connections keep the arena's size and `input`/`output`; MOD_WEIGHT throws exactly without connections; ADD_SELF_CONN and SWAP_NODES never throw |
| NeatNetwork.Network.Retune | Javascript/NeatJS/src/architecture/network.js:254-300 | MOD_WEIGHT throws exactly without connections and SWAP_NODES never throws, and the arena's size stays |
| NeatNetwork.Network.Rewire | Javascript/NeatJS/src/architecture/network.js:254-300 | the rewiring operators keep the arena's size; ADD_SELF_CONN never throws |
| NeatSerial.IndexRef | Javascript/NeatJS/src/architecture/network.js:544-545 | a node reference is written `undefined` exactly when the node has no `index`, and otherwise as that index |
| NeatSerial.GaterRef | Javascript/NeatJS/src/architecture/network.js:546 | a gater is written `null` exactly when the connection has none |
| NeatSerial.SetIndex | Javascript/NeatJS/src/architecture/network.js:530 | writing a node's `index` changes that one field of that one node |
| NeatSerial.IndexedUpTo | Javascript/NeatJS/src/architecture/network.js:529-530 | the walk over `nodes` keeps the connections and the number of nodes |
| NeatSerial.IndexedFrame | Javascript/NeatJS/src/architecture/network.js:529-539 | the walk changes each node's `index` and no other field |
| NeatSerial.IndexKept | Javascript/NeatJS/src/architecture/network.js:530 | a node not yet visited keeps the `index` it had before the call |
| NeatSerial.IndexLast | Javascript/NeatJS/src/architecture/network.js:530 | after `k` rounds a node carries the last position below `k` at which it occurs |
| NeatSerial.NodesJSON | Javascript/NeatJS/src/architecture/network.js:531 | the node objects are written exactly when every visited node has a squash, one `node.toJSON()` per position, in order |
| NeatSerial.SelfJSON | Javascript/NeatJS/src/architecture/network.js:532-537 | a self-connection entry is written exactly when the self weight is not 0, from and to the node's position, with the gater read at that moment |
| NeatSerial.WalkRound | Javascript/NeatJS/src/architecture/network.js:529-539 | one round numbers the visited node, leaves its object unaffected by the numbering, and appends its object and its self entry |
| NeatSerial.ConnEntry | Javascript/NeatJS/src/architecture/network.js:543-547 | a connection entry carries the weight and the `index` of its ends and of its gater |
| NeatSerial.ConnsJSON | Javascript/NeatJS/src/architecture/network.js:542-548 | one entry per listed connection, in list order, read after the walk |
| NeatSerial.IndexedDistinct | Javascript/NeatJS/src/architecture/network.js:529-530 | on a list without repeats, a node's `index` is its position once the walk has passed it and untouched before |
| NeatSerial.WalkNumbers | Javascript/NeatJS/src/architecture/network.js:529-539 | after the whole walk over a list without repeats every node of it carries its position |
| NeatSerial.RefOfNumbered | Javascript/NeatJS/src/architecture/network.js:544-545 | a node of a numbered list is written as its own position in the list |
| NeatSerial.SelfRefs | Javascript/NeatJS/src/architecture/network.js:532-537 | the self entry of a numbered node refers only to positions when its gater lies in the list |
| NeatSerial.SelfsFixedRefs | Javascript/NeatJS/src/architecture/network.js:532-537 | self entries read after the walk refer only to positions |
| NeatSerial.ConnRefs | Javascript/NeatJS/src/architecture/network.js:543-547 | the entry of a connection inside a numbered list names its ends and its gater by their positions, and has a gater exactly when the connection does |
| NeatSerial.AfterWalk | Javascript/NeatJS/src/architecture/network.js:529-539 | after the walk the arena is numbered and its connections are those of before |
| NeatSerial.FixedRefsResolve | Javascript/NeatJS/src/architecture/network.js:519-551 | with gaters read after the walk, every reference written for a network without repeated nodes and closed under its connections is a position, and each connection entry names its own ends and gater |
| NeatSerial.SecondCall | Javascript/NeatJS/src/architecture/network.js:519-551 | a second `toJSON` on the same network writes what the corrected serializer writes |
| NeatSerial.Rewalk | Javascript/NeatJS/src/architecture/network.js:529-530 | walking a list without repeats a second time changes nothing |
| NeatSerial.NodesIgnoreIndex | Javascript/NeatJS/src/architecture/node.js:413-420 | the node objects do not depend on `index` |
| NeatSerial.SelfSecondStep | Javascript/NeatJS/src/architecture/network.js:532-537 | in the second walk each self entry reads the positions written by the first |
| NeatSerial.SelfsSecondCall | Javascript/NeatJS/src/architecture/network.js:532-537 | in the second walk every self entry equals the one read after the walk |
| NeatLoad.Resolve | Javascript/NeatJS/src/architecture/network.js:994 | `network.nodes[ref]` resolves exactly for a numeric reference inside the list, to the node at that position |
| NeatLoad.Range | Javascript/NeatJS/src/architecture/network.js:989-991 | the new node list is the run of fresh arena positions, one per node object |
| NeatLoad.PushNodes | Javascript/NeatJS/src/architecture/network.js:989-991 | the node loop adds one node and one zero-weight self-connection per object |
| NeatLoad.PushStep | Javascript/NeatJS/src/architecture/network.js:989-991 | each round of the node loop extends the arena by the next object's node |
| NeatLoad.Pushed | Javascript/NeatJS/src/architecture/node.js:425-433 | the `k`-th object becomes the `k`-th new node, with the `k`-th new connection as its self-connection, and the old nodes stay as they were |
| NeatLoad.Attach | Javascript/NeatJS/src/architecture/network.js:994-995 | connecting the ends of an entry files the connection under `selfconns` or `connections`, sets its weight to the entry's, and leaves `gates` and every node object unchanged |
| NeatLoad.LoadConn | Javascript/NeatJS/src/architecture/network.js:993-1000 | an entry throws exactly when an end does not resolve, when two distinct ends are already connected, or when a gater other than `null` does not resolve; otherwise only the connection lists and `gates` change and every node object stays |
| NeatLoad.Gated | Javascript/NeatJS/src/architecture/network.js:997-999 | gating by a node of the network succeeds and changes only `gates` and the gated connection |
| NeatLoad.LoadConns | Javascript/NeatJS/src/architecture/network.js:993-1000 | the connection loop keeps every index in the arena, changes only the connection lists and `gates`, and leaves every node object as read |
| NeatLoad.LoadNet | Javascript/NeatJS/src/architecture/network.js:983-1003 | on success the network lists exactly the new nodes, in order, and carries the JSON's dropout |
| NeatLoad.LoadedNodes | Javascript/NeatJS/src/architecture/network.js:983-1003 | the loaded network lists the new nodes in JSON order and writes each back as the object it was read from |
| NeatLoad.ResolvedEntry | Javascript/NeatJS/src/architecture/network.js:994 | an entry whose references all resolve throws exactly when its two distinct ends are already connected |
| NeatLoad.UndefinedGaterThrows | Javascript/NeatJS/src/architecture/network.js:997-999 | an entry with an `undefined` gater is rejected whatever network it is loaded into |
| NeatLoad.TwoNodes | Javascript/NeatJS/src/architecture/network.js:162-171 | the two-node network where node 1 gates the weighted self-connection of node 0 is a well-formed arena |
| NeatLoad.StaleGaterWritten | Javascript/NeatJS/src/architecture/network.js:532-537 | on that network `toJSON` writes the self entry of node 0 with an `undefined` gater, since node 1 is not yet numbered |
| NeatLoad.FixedGaterWritten | Javascript/NeatJS/src/architecture/network.js:532-537 | the corrected serializer writes position 1 for that gater |
| NeatLoad.FirstGaterUndefined | Javascript/NeatJS/src/architecture/network.js:993-1000 | a JSON whose first connection entry has an `undefined` gater never loads |
| NeatLoad.StaleGaterExample | Javascript/NeatJS/src/architecture/network.js:983-1003 | on that network `fromJSON(toJSON())` throws, while the corrected serializer's output refers only to positions |
| NeatLoad.LoadEntry | Javascript/NeatJS/src/architecture/network.js:993-1000 | one round of the connection loop throws exactly when `LoadConn` does |
| NeatLoad.AttachEntry | Javascript/NeatJS/src/architecture/network.js:994-995 | `connect` then the weight set: throws exactly when the pair already projects, otherwise gives `Attach` |
| NeatLoad.LoadEntries | Javascript/NeatJS/src/architecture/network.js:993-1000 | the connection loop throws exactly when `LoadConns` does |
| NeatLoad.PushAll | Javascript/NeatJS/src/architecture/network.js:985-991 | the dropout is set, the lists are reset and the arena becomes `PushNodes` of the objects |
| NeatLoad.PushLoop | Javascript/NeatJS/src/architecture/network.js:989-991 | the node loop turns the arena into `PushNodes` of the objects and returns the new positions in order |
| NeatLoad.PushValues | Javascript/NeatJS/src/architecture/network.js:989-991 | the node loop on the arena's value computes `PushNodes` and the run of new positions |
| NeatLoad.FromJSON | Javascript/NeatJS/src/architecture/network.js:983-1003 | `new Network(json.input, json.output)` is built first; loading throws exactly when `LoadNet` does, and otherwise yields a fresh network on the same arena |
| NeatRoundTrip.LoadConnsAppend | Javascript/NeatJS/src/architecture/network.js:993-1000 | the connection loop over two runs of entries is the loop over the first run, then over the second from where the first stopped |
| NeatRoundTrip.PushedSelf | Javascript/NeatJS/src/architecture/network.js:989-991 | the `k`-th node the node loop adds has no out-connections and owns the `k`-th new connection, of weight 0 and with no gater |
| NeatRoundTrip.AttachFrame | Javascript/NeatJS/src/architecture/network.js:994-995 | connecting an entry's ends keeps every node's self-connection; a pair appends one connection to the source's out-list and keeps every older connection and every other out-list; a self entry changes no node and no other connection |
| NeatRoundTrip.GatedFrame | Javascript/NeatJS/src/architecture/network.js:997-999 | gating keeps every node's self-connection and out-list |
| NeatRoundTrip.SelfEntryStep | Javascript/NeatJS/src/architecture/network.js:993-1000 | a self entry of a node whose self-connection is ungated loads, sets that connection's weight and gater to the entry's, and changes no node, no list of nodes or connections, and no other connection |
| NeatRoundTrip.PairEntryStep | Javascript/NeatJS/src/architecture/network.js:993-1000 | an entry joining two distinct nodes not yet connected loads, appends a connection with the entry's ends, weight and gater to the arena, to `connections` and to the source's out-list, and changes no older connection and no other out-list |
| NeatRoundTrip.NotProjecting | Javascript/NeatJS/src/architecture/network.js:994 | while loading, the entry of a connection whose list joins distinct pairs of distinct nodes joins two distinct loaded nodes that no earlier entry connected, so `connect` does not throw |
| NeatRoundTrip.SelvesPhase | Javascript/NeatJS/src/architecture/network.js:993-1000 | the self entries of the first `k` nodes all load, each setting its node's self-connection to its weight and resolved gater, and leave the other self-connections zero |
| NeatRoundTrip.PairsPhase | Javascript/NeatJS/src/architecture/network.js:993-1000 | the connection entries of the first `k` connections all load, in order, each into a new connection with the entry's resolved ends, weight and gater, and keep the self-connections |
| NeatRoundTrip.LoadsBack | Javascript/NeatJS/src/architecture/network.js:983-1003 | `fromJSON` of what the corrected serializer writes goes through the node loop and both runs of entries without throwing |
| NeatRoundTrip.SerializedNames | Javascript/NeatJS/src/architecture/node.js:413-433 | every squash name `toJSON` writes is one `fromJSON` looks up successfully |
| NeatRoundTrip.SelfRestoredOf | Javascript/NeatJS/src/architecture/network.js:532-537 | after the load, a node's self-connection has its original weight, and its original gater moved to the loaded nodes when the weight is not 0 |
| NeatRoundTrip.ConnRestoredOf | Javascript/NeatJS/src/architecture/network.js:543-547 | after the load, each connection has its original weight, and its ends and gater moved to the loaded nodes |
| NeatRoundTrip.RoundTrip | Javascript/NeatJS/src/architecture/network.js:519-551 | `fromJSON(toJSON())` with the corrected serializer, on a network without repeated nodes, closed under its connections and gaters, whose connection list joins distinct pairs of distinct nodes: loading goes through and gives back input, output and dropout, one node per node with the same bias, type, squash and mask, every self-connection's weight (and gater when the weight is not 0), and every connection in order with its weight and its ends and gater moved to the loaded nodes |
| NeatCross.CrossSize | Javascript/NeatJS/src/architecture/network.js:1061-1068 | the offspring's node count lies between the parents' counts, and is the fitter parent's count when `equal` is not set and the scores differ |
| NeatCross.ParentPosition | Javascript/NeatJS/src/architecture/network.js:1080-1089 | below `size - output` offspring node `i` is the node at position `i` of the parent the coin names, or of the other parent when that one has none, and is `undefined` only when neither has one; from there on it is the node at the same distance from the end of the named parent, `undefined` when that parent is too short |
| NeatCross.Chosen | Javascript/NeatJS/src/architecture/network.js:1078-1089 | when no round meets an `undefined` node there is one chosen parent node per round, the one `ParentNode` names |
| NeatCross.ChosenThrowsOn | Javascript/NeatJS/src/architecture/network.js:1091-1094 | a round whose parent node is `undefined` makes the whole node loop throw |
| NeatCross.ChosenDefined | Javascript/NeatJS/src/architecture/network.js:1078-1089 | when both parents hold at least `output` nodes and the size is at most the larger count, no round meets an `undefined` node |
| NeatCross.ChosenFromParents | Javascript/NeatJS/src/architecture/network.js:1078-1089 | every chosen node is a node of one of the parents |
| NeatCross.CopyNode | Javascript/NeatJS/src/architecture/network.js:1091-1094 | a copy carries the parent's bias, squash and type, with mask 1, no connections and no `index` |
| NeatCross.PushCopies | Javascript/NeatJS/src/architecture/network.js:1091-1096 | the node loop adds one node and one zero self-connection per chosen parent node |
| NeatCross.CopyStep | Javascript/NeatJS/src/architecture/network.js:1091-1096 | each round extends the arena by the copy of the next chosen node |
| NeatCross.Copied | Javascript/NeatJS/src/architecture/network.js:1091-1096 | the `k`-th copy is the `k`-th new node with the `k`-th new connection as its self-connection, and the old nodes stay as they were |
| NeatCross.Lookup | Javascript/NeatJS/src/architecture/network.js:1134-1135 | a key's gene is in the table when found, and no entry carries the key when not |
| NeatCross.Put | Javascript/NeatJS/src/architecture/network.js:1111 | storing a gene makes its key read it, leaves every other key as it read, and keeps the keys ascending |
| NeatCross.Filed | Javascript/NeatJS/src/architecture/network.js:1105-1111 | filing one connection entry keeps the table's keys ascending |
| NeatCross.Genes | Javascript/NeatJS/src/architecture/network.js:1103-1112 | `addConnectionsToMap` over a list keeps the table's keys ascending |
| NeatCross.Table | Javascript/NeatJS/src/architecture/network.js:1103-1123 | a network's gene table, connections then self-connections, has ascending keys |
| NeatCross.GenesKeyed | Javascript/NeatJS/src/architecture/network.js:1111 | every gene of the table is stored under the innovation number of its own ends |
| NeatCross.GenesKeep | Javascript/NeatJS/src/architecture/network.js:1111 | a key stays in the table once filed |
| NeatCross.GenesHave | Javascript/NeatJS/src/architecture/network.js:1104-1112 | every connection of the list whose ends are numbered has a gene under the innovation number of its ends |
| NeatCross.GenesFrom | Javascript/NeatJS/src/architecture/network.js:1104-1112 | every gene of the table is the entry of one of the listed connections, or was in the table before |
| NeatCross.SelectedKeys | Javascript/NeatJS/src/architecture/network.js:1133-1146 | the offspring gets a gene for a key exactly when both parents have it, or the first has it and is at least as fit, or the second has it and is at least as fit (`equal` counting as both); the gene is one of the parents' genes for the key, the only one when just one parent has it |
| NeatCross.FirstSorted | Javascript/NeatJS/src/architecture/network.js:1133-1140 | the genes the first key loop takes come in ascending key order, all keys of the first table |
| NeatCross.SecondSorted | Javascript/NeatJS/src/architecture/network.js:1142-1146 | the genes the second key loop takes come in ascending key order, keys of the second table only |
| NeatCross.SelectedUnique | Javascript/NeatJS/src/architecture/network.js:1133-1146 | no key is chosen twice |
| NeatCross.Gatable | Javascript/NeatJS/src/architecture/network.js:1156 | a gater position is kept exactly when it resolves to an offspring node, otherwise the gene is treated as ungated; weight and ends are unchanged |
| NeatCross.CrossConn | Javascript/NeatJS/src/architecture/network.js:1149-1160 | a gene with an end at or beyond the size is skipped; only a pair of distinct offspring nodes already connected throws; otherwise a new connection between the resolved ends with the gene's weight and resolved gater is appended to `connections` |
| NeatCross.CrossConns | Javascript/NeatJS/src/architecture/network.js:1149-1160 | the connection loop keeps the offspring's node list, changes only its connection lists and `gates`, and leaves every node object as it was |
| NeatCross.Numbered2 | Javascript/NeatJS/src/architecture/network.js:1074-1075 | numbering both parents changes only node `index` fields |
| NeatCross.Bred | Javascript/NeatJS/src/architecture/network.js:1052-1162 | on success the offspring lists exactly `size` new nodes, every index lies in the arena, and only its four lists changed |
| NeatCross.WireGenes | Javascript/NeatJS/src/architecture/network.js:1100-1160 | wiring the chosen genes keeps the offspring's new nodes, the arena's node count and every node object |
| NeatCross.CopyJSON | Javascript/NeatJS/src/architecture/network.js:1091-1094 | a copy serializes as its parent node with mask 1 |
| NeatCross.CopyKeeps | Javascript/NeatJS/src/architecture/network.js:1091-1096 | the `k`-th copy serializes as its parent with mask 1, and so as any node agreeing with that parent on what serializes |
| NeatCross.NumberedFrame | Javascript/NeatJS/src/architecture/network.js:1074-1075 | numbering changes a node's `index` and nothing a copy keeps |
| NeatCross.OffspringNodes | Javascript/NeatJS/src/architecture/network.js:1078-1097 | offspring node `k` is a copy of the parent node its round chose: it serializes as that node with mask 1 |
| NeatCross.NumberValues | Javascript/NeatJS/src/architecture/network.js:1074 | the numbering loop yields the arena of the `toJSON` walk |
| NeatCross.ChooseValues | Javascript/NeatJS/src/architecture/network.js:1078-1089 | the node loop throws exactly when `Chosen` does, and otherwise yields the chosen nodes |
| NeatCross.CopyValues | Javascript/NeatJS/src/architecture/network.js:1091-1096 | the copying half of the node loop yields `PushCopies` and the run of new positions |
| NeatCross.TableValues | Javascript/NeatJS/src/architecture/network.js:1103-1112 | the map loop yields `Genes` |
| NeatCross.FirstValues | Javascript/NeatJS/src/architecture/network.js:1133-1140 | the first key loop yields `FromFirst` |
| NeatCross.SecondValues | Javascript/NeatJS/src/architecture/network.js:1142-1146 | the second key loop yields `FromSecond` |
| NeatCross.CrossEntry | Javascript/NeatJS/src/architecture/network.js:1150-1159 | one gene of the connection loop throws exactly when `CrossConn` does and otherwise yields its state |
| NeatCross.CrossEntries | Javascript/NeatJS/src/architecture/network.js:1149-1160 | the connection loop throws exactly when `CrossConns` does and otherwise yields its state |
| NeatCross.CrossOver | Javascript/NeatJS/src/architecture/network.js:1046-1163 | parents with different input or output sizes throw before anything is built; otherwise the offspring, built by `new Network(network1.input, network2.output)`, throws exactly when `Bred` does and is otherwise a fresh network in the same arena whose state is `Bred`'s |
| NeatCross.Breed | Javascript/NeatJS/src/architecture/network.js:1053-1160 | everything after `new Network` throws exactly when `Bred` does and otherwise yields its state |
| NeatCross.NumberBoth | Javascript/NeatJS/src/architecture/network.js:1074-1075 | the two numbering loops yield `Numbered2` |
| NeatCross.Populate | Javascript/NeatJS/src/architecture/network.js:1096 | the copies become the offspring's node list and nothing else changes |
| NeatCross.Rewire | Javascript/NeatJS/src/architecture/network.js:1100-1160 | the tables, the key loops and the connection loop throw exactly when `WireGenes` does and otherwise yield its state |
| NeatArchitect.Concat | Javascript/NeatJS/src/architecture/architect.js:23-30 | a node is in the concatenation of a layer's groups exactly when it is in one of the groups |
| NeatArchitect.FlattenedHas | Javascript/NeatJS/src/architecture/architect.js:21-35 | a node is in the flattened list exactly when it is a member of one of the listed items (a group, a layer's group or a node) |
| NeatArchitect.FlattenedBelow | Javascript/NeatJS/src/architecture/architect.js:21-35 | every flattened node lies in the arena when every listed item's nodes do |
| NeatArchitect.PushAll | Javascript/NeatJS/src/architecture/architect.js:23-25 | one inner push loop appends the group's nodes in order |
| NeatArchitect.PushGroups | Javascript/NeatJS/src/architecture/architect.js:27-31 | the two inner loops append the nodes of each of the layer's groups in order |
| NeatArchitect.Flatten | Javascript/NeatJS/src/architecture/architect.js:19-35 | the first loop yields the flattened list |
| NeatArchitect.Retyped | Javascript/NeatJS/src/architecture/architect.js:41-54 | setting the type of a filed node keeps its kind and changes only its type, to `output` for an output, `input` for an input, and not at all for a hidden node |
| NeatArchitect.RetypedTwice | Javascript/NeatJS/src/architecture/architect.js:41-54 | retyping is idempotent, so a node listed twice is retyped once |
| NeatArchitect.Relabelled | Javascript/NeatJS/src/architecture/architect.js:45-50 | retyping the listed nodes keeps the arena's size |
| NeatArchitect.RelabelledOk | Javascript/NeatJS/src/architecture/architect.js:45-50 | retyping keeps every reference of the arena and every node's kind |
| NeatArchitect.Pick | Javascript/NeatJS/src/architecture/architect.js:40-55 | the nodes filed under one kind are nodes of the list, at most as many |
| NeatArchitect.PickHas | Javascript/NeatJS/src/architecture/architect.js:40-55 | a node is filed under a kind exactly when it is listed and of that kind |
| NeatArchitect.ReverseAt | Javascript/NeatJS/src/architecture/architect.js:40 | the inputs and outputs come out in reverse list order, since the loop runs from the end |
| NeatArchitect.ReversePermutes | Javascript/NeatJS/src/architecture/architect.js:40 | reversing drops and adds nothing |
| NeatArchitect.Order | Javascript/NeatJS/src/architecture/architect.js:58 | the final order holds nodes of the arena only |
| NeatArchitect.PickCount | Javascript/NeatJS/src/architecture/architect.js:40-55 | each node is filed under its kind as often as it is listed, and under no other kind |
| NeatArchitect.PickPermutes | Javascript/NeatJS/src/architecture/architect.js:40-55 | the three kinds together hold the listed nodes, each as often as listed |
| NeatArchitect.OrderPermutes | Javascript/NeatJS/src/architecture/architect.js:58 | `Construct` reorders the listed nodes and drops none: the order is a permutation of the flattened list |
| NeatArchitect.PickKinds | Javascript/NeatJS/src/architecture/architect.js:40-55 | every node filed under a kind is of that kind |
| NeatArchitect.OrderKinds | Javascript/NeatJS/src/architecture/architect.js:57-58 | input nodes come first, then the hidden nodes, then the output nodes |
| NeatArchitect.PickRelabelled | Javascript/NeatJS/src/architecture/architect.js:45-50 | retyping the listed nodes files none of them differently |
| NeatArchitect.FiledOutput | Javascript/NeatJS/src/architecture/architect.js:41-48 | filing an output moves it out of the working list onto the outputs |
| NeatArchitect.FiledInput | Javascript/NeatJS/src/architecture/architect.js:49-53 | filing an input moves it out of the working list onto the inputs |
| NeatArchitect.FiledHidden | Javascript/NeatJS/src/architecture/architect.js:40-55 | a hidden node stays in the working list |
| NeatArchitect.RelabelledStep | Javascript/NeatJS/src/architecture/architect.js:45-50 | filing a node retypes it, whether or not it was filed before |
| NeatArchitect.ClassifyOne | Javascript/NeatJS/src/architecture/architect.js:41-54 | one turn of the second loop files the node and counts inputs and outputs as the lists grow, changing only the counts and the node's type |
| NeatArchitect.Classify | Javascript/NeatJS/src/architecture/architect.js:38-55 | the second loop leaves the hidden nodes in list order, the inputs and outputs in reverse list order, and retypes every listed node |
| NeatArchitect.RelabelledFixed | Javascript/NeatJS/src/architecture/architect.js:45-50 | every listed node carries the type of its kind once retyped |
| NeatArchitect.Links | Javascript/NeatJS/src/architecture/architect.js:65-73 | what one node adds to a list are connections of the arena |
| NeatArchitect.Gathered | Javascript/NeatJS/src/architecture/architect.js:64-74 | what the nodes add to a list are connections of the arena |
| NeatArchitect.GatheredHas | Javascript/NeatJS/src/architecture/architect.js:64-74 | a connection is gathered exactly when some node of the order adds it |
| NeatArchitect.SelfconnsNonZero | Javascript/NeatJS/src/architecture/architect.js:71-73 | `selfconns` holds exactly the self-connections of the ordered nodes with non-zero weight |
| NeatArchitect.GatheredStep | Javascript/NeatJS/src/architecture/architect.js:64-74 | each node's round appends its outgoing, gated and live self connections |
| NeatArchitect.Collect | Javascript/NeatJS/src/architecture/architect.js:64-74 | the third loop gathers each node's outgoing connections, gated connections and live self-connection, in node order |
| NeatArchitect.Publish | Javascript/NeatJS/src/architecture/architect.js:64-76 | the network's lists receive the gathered connections and its nodes become the order |
| NeatArchitect.Assemble | Javascript/NeatJS/src/architecture/architect.js:37-78 | the listed nodes are retyped even when it throws; it throws exactly when no listed node is an input or none is an output; otherwise the network holds the ordered nodes, the counts of inputs and outputs, and the gathered lists |
| NeatArchitect.Construct | Javascript/NeatJS/src/architecture/architect.js:14-79 | every listed node ends up typed after its kind; it throws exactly when there is no input or no output; otherwise a fresh network on the arena holds the nodes inputs first and outputs last, counts them, lists the gathered connections, gates and non-zero self-connections, dropout 0 and no score |
| NeatArchitect.Layers | Javascript/NeatJS/src/architecture/architect.js:84-87 | the layer sizes of `Perceptron` (and likewise `LSTM` and `GRU`) throw exactly with fewer than three entries, and otherwise split into an input size, at least one middle size and an output size |
| NeatMulti.NumAt | Javascript/NeatJS/src/multithreading/multi.js:17 | reading a number array inside its length gives that number, past its end `undefined` |
| NeatMulti.CellAt | Javascript/NeatJS/src/multithreading/multi.js:58 | reading a cell array inside its length gives that cell, past its end `undefined` |
| NeatMulti.Row | Javascript/NeatJS/src/multithreading/multi.js:16-18 | an inner loop of `serializeDataSet` pushes exactly `n` cells |
| NeatMulti.RowAt | Javascript/NeatJS/src/multithreading/multi.js:16-18 | cell `j` of a pushed row is element `j` of the array, `undefined` past its end |
| NeatMulti.FlatLength | Javascript/NeatJS/src/multithreading/multi.js:15-22 | the body of a serialized set holds `n * (inLen + outLen)` cells |
| NeatMulti.FlatAt | Javascript/NeatJS/src/multithreading/multi.js:15-22 | sample `i` occupies cells `i * size` to `(i + 1) * size` of the body, inputs first |
| NeatMulti.SerializedLayout | Javascript/NeatJS/src/multithreading/multi.js:12-25 | the serialized set holds the two sizes, then for each sample `i` its inputs from `2 + i * size` on and its outputs after them, `undefined` wherever a sample is shorter than the first |
| NeatMulti.SerializeDataSet | Javascript/NeatJS/src/multithreading/multi.js:12-25 | the loops of `serializeDataSet` yield `Serialized` |
| NeatMulti.PushSample | Javascript/NeatJS/src/multithreading/multi.js:16-21 | the two inner loops append a sample's first `inLen` inputs and first `outLen` outputs |
| NeatMulti.RoundsCover | Javascript/NeatJS/src/multithreading/multi.js:55 | the number of rounds of `deserializeDataSet` is `(length - 2) / size` rounded up |
| NeatMulti.Slice | Javascript/NeatJS/src/multithreading/multi.js:57-63 | an inner loop of `deserializeDataSet` reads exactly `n` cells |
| NeatMulti.Samples | Javascript/NeatJS/src/multithreading/multi.js:55-66 | `n` rounds push two arrays each |
| NeatMulti.RealBound | Javascript/NeatJS/src/multithreading/multi.js:55 | the loop test on reals, `i < len / size`, is `i * size < len` on whole numbers |
| NeatMulti.DeserializeDataSet | Javascript/NeatJS/src/multithreading/multi.js:51-69 | the loops of `deserializeDataSet` yield `Deserialized` |
| NeatMulti.ReadSamples | Javascript/NeatJS/src/multithreading/multi.js:55-66 | the outer loop reads `Rounds` samples |
| NeatMulti.ReadCells | Javascript/NeatJS/src/multithreading/multi.js:57-59 | one inner loop reads the cells from `from` to `from + n - 1` |
| NeatMulti.LoopBound | Javascript/NeatJS/src/multithreading/multi.js:55 | the loop test holds for exactly the first `Rounds` values of `i` |
| NeatMulti.IntBound | Javascript/NeatJS/src/multithreading/multi.js:55 | `i * size < len` holds for exactly the first `Rounds` values of `i` |
| NeatMulti.Pairs | Javascript/NeatJS/src/multithreading/multi.js:64-65 | a set of `n` samples read back is `2 * n` arrays, inputs and outputs alternating |
| NeatMulti.NumsRow | Javascript/NeatJS/src/multithreading/multi.js:16-18 | a row of an array's own length is the whole array |
| NeatMulti.RowPrefix | Javascript/NeatJS/src/multithreading/multi.js:16-18 | a row of `n` cells reads only the first `n` elements |
| NeatMulti.SampleSlices | Javascript/NeatJS/src/multithreading/multi.js:57-63 | round `i` of reading a serialized set gives back sample `i`'s inputs and outputs |
| NeatMulti.InputPrefix | Javascript/NeatJS/src/multithreading/multi.js:57-59 | the first `n` input cells of round `i` are the first `n` inputs of sample `i` |
| NeatMulti.OutputPrefix | Javascript/NeatJS/src/multithreading/multi.js:61-63 | the first `n` output cells of round `i` are the first `n` outputs of sample `i` |
| NeatMulti.SamplesOfSet | Javascript/NeatJS/src/multithreading/multi.js:55-66 | the first `n` rounds give back the first `n` samples |
| NeatMulti.NextSample | Javascript/NeatJS/src/multithreading/multi.js:55-66 | one more round reads back one more sample |
| NeatMulti.AllSamples | Javascript/NeatJS/src/multithreading/multi.js:55-66 | all rounds together give back the whole set |
| NeatMulti.HeaderOf | Javascript/NeatJS/src/multithreading/multi.js:13 | the header of a serialized set holds the first sample's sizes, and its body takes `|d|` rounds |
| NeatMulti.DeserializedIs | Javascript/NeatJS/src/multithreading/multi.js:54-55 | a header of whole sizes not both 0 neither hangs nor reads `NaN`, and the set read back is `Samples` |
| NeatMulti.RoundsExact | Javascript/NeatJS/src/multithreading/multi.js:55 | `n` blocks of `size` cells take exactly `n` rounds |
| NeatMulti.RoundTrip | Javascript/NeatJS/src/multithreading/multi.js:12-69 | `deserializeDataSet(serializeDataSet(d))` gives back every sample as an input array followed by an output array, when all samples share the first one's sizes and those are not both 0 |
| NeatMulti.EmptySamplesVanish | Javascript/NeatJS/src/multithreading/multi.js:54-55 | samples with no inputs and no outputs serialize to the header alone, which reads back as no samples at all |
| NeatMulti.DeserializedShape | Javascript/NeatJS/src/multithreading/multi.js:55-66 | `deserializeDataSet` returns two arrays per round, `ceil((len - 2) / size)` rounds, with `inLen` and `outLen` cells |
| NeatMulti.SamplesShape | Javascript/NeatJS/src/multithreading/multi.js:57-63 | each input array read has `inLen` cells and each output array `outLen` |
| NeatMultiRun.GaterOf | Javascript/NeatJS/src/multithreading/multi.js:37 | a gater field reads as no gater exactly when it is `-1`, otherwise as that index |
| NeatMultiRun.Triples | Javascript/NeatJS/src/multithreading/multi.js:39-41 | the connection walk ends at a sentinel, three cells per connection after its start |
| NeatMultiRun.GaterCode | Javascript/NeatJS/src/multithreading/multi.js:37 | a gater is written as a field that reads back as it |
| NeatMultiRun.TriplesCode | Javascript/NeatJS/src/multithreading/multi.js:39-41 | each connection takes three cells |
| NeatMultiRun.RecordCode | Javascript/NeatJS/src/multithreading/multi.js:31-41 | a node record takes six cells plus three per connection |
| NeatMultiRun.TriplesOfCode | Javascript/NeatJS/src/multithreading/multi.js:39-41 | the walk reads back every written connection and stops at the sentinel |
| NeatMultiRun.ParseJoin | Javascript/NeatJS/src/multithreading/multi.js:30-43 | a record at `i` and the records after its sentinel make up the records from `i` |
| NeatMultiRun.ParseSplit | Javascript/NeatJS/src/multithreading/multi.js:30-43 | the records from `i`, when there are any, start with one written at `i` |
| NeatMultiRun.RecordOfCode | Javascript/NeatJS/src/multithreading/multi.js:31-41 | a written record reads back as itself, its sentinel after its connections |
| NeatMultiRun.ParseCode | Javascript/NeatJS/src/multithreading/multi.js:30-43 | reading written records gives them back: index, bias, squash, self weight, self gater, connections, sentinel |
| NeatMultiRun.Step | Javascript/NeatJS/src/multithreading/multi.js:37-42 | one record changes no array's length |
| NeatMultiRun.Run | Javascript/NeatJS/src/multithreading/multi.js:30-43 | the records in order change no array's length |
| NeatMultiRun.LastWriteSquashed | Javascript/NeatJS/src/multithreading/multi.js:30-43 | after the walk, the activation cell of a record that no later record names holds that record's squash applied to the node's final state |
| NeatMultiRun.Untouched | Javascript/NeatJS/src/multithreading/multi.js:30-43 | cells that no record names keep their values |
| NeatMultiRun.InputsKept | Javascript/NeatJS/src/multithreading/multi.js:29-43 | inputs that no record overwrites are still in `A` at the end |
| NeatMultiRun.ActivateSerializedNetwork | Javascript/NeatJS/src/multithreading/multi.js:28-48 | `A` and `S` end as `Run` of the records from the copied inputs; the output is the last `data[1]` entries of `A`, in order |
| NeatMultiRun.CopyInputs | Javascript/NeatJS/src/multithreading/multi.js:29 | the first loop copies the first `data[0]` inputs into `A` and leaves the rest |
| NeatMultiRun.ReadOutputs | Javascript/NeatJS/src/multithreading/multi.js:45-46 | the last loop yields the last `count` entries of `A` in order |
| NeatMultiRun.WalkRecords | Javascript/NeatJS/src/multithreading/multi.js:30-43 | the outer loop runs every record in order |
| NeatMultiRun.WalkOne | Javascript/NeatJS/src/multithreading/multi.js:30-43 | one round consumes one record and leaves the run of the rest unchanged |
| NeatMultiRun.RestOfRun | Javascript/NeatJS/src/multithreading/multi.js:30-43 | running records is running the first, then the rest |
| NeatMultiRun.ActivateNode | Javascript/NeatJS/src/multithreading/multi.js:31-42 | one round sets the record's node state and activation as `Step` states, and moves past the sentinel |
| NeatMultiRun.AddConnections | Javascript/NeatJS/src/multithreading/multi.js:39-41 | the inner loop adds each connection's contribution to `S[index]` and stops at the sentinel |
| NeatMultiRun.AddConnection | Javascript/NeatJS/src/multithreading/multi.js:40 | one round adds one connection's contribution to `S[index]` and changes no other cell |
| NeatMultiRun.TriplesSplit | Javascript/NeatJS/src/multithreading/multi.js:40 | a triple before the sentinel holds an index, a weight and a gater field |
| NeatMultiRun.AccSplit | Javascript/NeatJS/src/multithreading/multi.js:40 | the sum over the connections is the first contribution plus the sum over the rest |
| NeatDriver.OrCount | Javascript/NeatJS/src/neat.js:21-25 | `option || default` on a count is the option when it is present and not 0, and the default otherwise |
| NeatDriver.OrRate | Javascript/NeatJS/src/neat.js:24 | `option || default` on a rate is the option when it is present and not 0, and the default otherwise |
| NeatDriver.OrInfinity | Javascript/NeatJS/src/neat.js:40-42 | a cap is the option when it is positive and absent (`Infinity`) otherwise |
| NeatDriver.Insert | Javascript/NeatJS/src/neat.js:197 | inserting a scored genome keeps the population scored and adds one |
| NeatDriver.SortDesc | Javascript/NeatJS/src/neat.js:197 | the sorted population has the same size and every genome scored |
| NeatDriver.InsertPermutes | Javascript/NeatJS/src/neat.js:197 | inserting adds exactly the genome |
| NeatDriver.InsertSorts | Javascript/NeatJS/src/neat.js:197 | inserting into a descending population keeps it descending |
| NeatDriver.SortDescSorted | Javascript/NeatJS/src/neat.js:196-198 | `sort` orders the genomes by descending score |
| NeatDriver.SortDescPermutes | Javascript/NeatJS/src/neat.js:196-198 | `sort` keeps every genome, as often as before |
| NeatDriver.Evaluated | Javascript/NeatJS/src/neat.js:185-189 | every genome comes back scored and nothing but its score changes |
| NeatDriver.Unscored | Javascript/NeatJS/src/neat.js:113-115 | each genome's score is cleared and nothing else changes |
| NeatDriver.Ranked | Javascript/NeatJS/src/neat.js:80-83 | the ranked population has the same size and every genome scored |
| NeatDriver.RankedSorts | Javascript/NeatJS/src/neat.js:80-83 | the ranked population is descending, and is a permutation of the old one when the last genome was already scored |
| NeatDriver.Lowest | Javascript/NeatJS/src/neat.js:248-251 | `minimalFitness` after the first loop is never positive |
| NeatDriver.LowestBelow | Javascript/NeatJS/src/neat.js:248-251 | `minimalFitness` is at most every score |
| NeatDriver.FirstAbove | Javascript/NeatJS/src/neat.js:261-265 | a genome found by the second loop is the first whose running sum passes the spin |
| NeatDriver.RouletteIndex | Javascript/NeatJS/src/neat.js:242-268 | FITNESS_PROPORTIONATE always picks a position of the population |
| NeatDriver.ShiftedWeights | Javascript/NeatJS/src/neat.js:255-256 | shifting by `|minimalFitness|` makes every weight non-negative |
| NeatDriver.PrefixGrows | Javascript/NeatJS/src/neat.js:261-265 | the running sum of shifted scores never falls |
| NeatDriver.PrefixIsTotal | Javascript/NeatJS/src/neat.js:252-256 | the running sum over the first `i` genomes is their scores plus `i` shifts |
| NeatDriver.PrefixReachesTotal | Javascript/NeatJS/src/neat.js:252-263 | the running sum over every genome is `totalFitness` |
| NeatDriver.FirstAboveFinds | Javascript/NeatJS/src/neat.js:261-265 | a spin below the final running sum lands on a genome |
| NeatDriver.FirstAboveSkips | Javascript/NeatJS/src/neat.js:261-265 | every genome passed over has a running sum at most the spin |
| NeatDriver.BelowWhole | Javascript/NeatJS/src/neat.js:258 | the spin lies in `[0, totalFitness)` |
| NeatDriver.SpinFinds | Javascript/NeatJS/src/neat.js:258-265 | with a positive total the spin always lands on a genome |
| NeatDriver.FallbackOnlyWhenFlat | Javascript/NeatJS/src/neat.js:267-268 | the uniform fallback happens only when the total is 0: every genome scores `minimalFitness`, which is not positive |
| NeatDriver.RoulettePicksWeighted | Javascript/NeatJS/src/neat.js:261-265 | a genome the roulette lands on has a positive shifted weight |
| NeatDriver.Spread | Javascript/NeatJS/src/neat.js:247-253 | the first loop yields `Lowest` and the sum of the scores |
| NeatDriver.Spin | Javascript/NeatJS/src/neat.js:259-265 | the second loop yields `FirstAbove` |
| NeatDriver.Roulette | Javascript/NeatJS/src/neat.js:247-268 | the two loops and the fallback yield `RouletteIndex` |
| NeatDriver.Entrants | Javascript/NeatJS/src/neat.js:277-281 | the tournament draws exactly `size` individuals, each from the population |
| NeatDriver.Winner | Javascript/NeatJS/src/neat.js:287-291 | from round `i` on, some round returns while rounds remain, and it is one of the remaining rounds |
| NeatDriver.TournamentReturns | Javascript/NeatJS/src/neat.js:269-292 | a tournament returns `undefined` exactly when its size is 0, and otherwise one of the population |
| NeatDriver.Tournament | Javascript/NeatJS/src/neat.js:277-291 | the two loops around the sort yield `TournamentPick` |
| NeatDriver.Take | Javascript/NeatJS/src/neat.js:91-94 | the elitism loop yields the first `elitism` genomes |
| NeatDriver.Neat.constructor | Javascript/NeatJS/src/neat.js:13-55 | the options take their defaults (popsize 50, elitism 0, provenance 0, mutation rate 0.3, amount 1, POWER, the FFW list, no caps), the generation is 0 and the pool is created |
| NeatDriver.Neat.Pool | Javascript/NeatJS/src/neat.js:60-73 | the pool holds `popsize` unscored genomes, copies of the template when one is set and fresh networks otherwise |
| NeatDriver.Neat.CreatePool | Javascript/NeatJS/src/neat.js:60-73 | the population becomes `Pool` and nothing else changes |
| NeatDriver.Neat.SelectMutationMethod | Javascript/NeatJS/src/neat.js:135-154 | the drawn mutation is one of the list; it is dropped (`null`) exactly when it would grow a count already at its cap |
| NeatDriver.Neat.Mutations | Javascript/NeatJS/src/neat.js:163-168 | with no mutation methods every round draws `null` and the genome stays as it was |
| NeatDriver.Neat.MutatedAll | Javascript/NeatJS/src/neat.js:159-171 | the population keeps its size, and genome `i` is left as it is when its draw exceeds `mutationRate` |
| NeatDriver.Neat.MutateGenome | Javascript/NeatJS/src/neat.js:163-168 | the inner loop applies the mutations drawn for genome `i` in turn |
| NeatDriver.Neat.MutateEach | Javascript/NeatJS/src/neat.js:161-170 | the outer loop yields `MutatedAll` |
| NeatDriver.Neat.Mutate | Javascript/NeatJS/src/neat.js:159-171 | the population becomes `MutatedAll` of the old one, the counters unchanged |
| NeatDriver.Neat.Evaluate | Javascript/NeatJS/src/neat.js:176-191 | every genome is scored by `fitness`, the counters unchanged |
| NeatDriver.Neat.Sort | Javascript/NeatJS/src/neat.js:196-198 | the population becomes `SortDesc` of the old one |
| NeatDriver.Neat.Bred | Javascript/NeatJS/src/neat.js:96-104 | the new population holds `provenance` template copies, then the offspring in order |
| NeatDriver.Neat.NextGeneration | Javascript/NeatJS/src/neat.js:106-115 | the next population is the bred genomes followed by the elites, every score cleared, so `provenance + count + elitism` long; the elites are the first `elitism` ranked genomes, and a bred genome whose draw exceeds the rate is left as bred |
| NeatDriver.Neat.NextGenerationSize | Javascript/NeatJS/src/neat.js:88-115 | `evolve` gives back a population of `popsize` genomes whenever the elites and the template copies fit in it |
| NeatDriver.Neat.Breed | Javascript/NeatJS/src/neat.js:96-104 | the provenance and breeding loops yield `Bred`, with no offspring for a negative count |
| NeatDriver.Neat.ResetScores | Javascript/NeatJS/src/neat.js:113-115 | the last loop clears every score |
| NeatDriver.Neat.Evolve | Javascript/NeatJS/src/neat.js:78-120 | with template copies to make and no template the call throws, leaving the population ranked and the generation unchanged; otherwise it returns a copy of the best ranked genome with its score, the population becomes `NextGeneration` of the ranked one and the generation counter goes up by one |
| NeatDriver.Neat.GetParent | Javascript/NeatJS/src/neat.js:235-296 | POWER sorts when the first genome scores below the second and returns the genome at the drawn power position; FITNESS_PROPORTIONATE returns the roulette's genome; TOURNAMENT throws exactly when its size exceeds `popsize` and otherwise returns the tournament's pick; any other selection throws with nothing changed |
| NeatDriver.Neat.Import | Javascript/NeatJS/src/neat.js:314-322 | the population becomes the loaded networks in order and `popsize` its length |

## Left out

- Floating point. Weights, biases, scores and fitness are exact reals, so rounding, overflow to `Infinity` and most `NaN`s are not modelled. Where the source's control flow depends on a `NaN` or an `Infinity`, the model has an explicit case for it.
- Activation and training. NeatJS `activate`, `noTraceActivate`, `propagate`, `train`, `_trainSet` and `test`; Cerebrum `Network.calculate`, `calculateNodeValue`, `Helper.sigmoid` and BackpropNetwork.js; Rust `train`, `predict` and `sigmoid`. These are floating-point numerics.
- The activation, cost and rate functions of NeatJS (methods/activation.js, methods/cost.js, methods/rate.js). A squash is a name. `Node.mutate` cycles through a list of squash names that the caller passes in.
- methods/mutation.js and methods/selection.js are not part of this model. The mutation catalogue and its options are a parameter. `FFW` and the default POWER exponent are parameters of the `Neat` constructor.
- Random draws. Each `Math.random()` is a value or a stream of values in `[0, 1)` that the caller supplies. Distributions are not modelled. The `sqrt(2 / input)` weight scale of the NeatJS constructor is a parameter `w`, and so are the perturbation amounts of the weight and bias mutations.
- Asynchrony, workers and I/O. NeatJS `Network.evolve` (async, worker pool) is left out. So are the async fitness callback of `Neat.evaluate`, its `fitnessPopulation` branch and its `clear` option. `multi.js`'s `activations` list and `testSerializedSet`, and the workers under multithreading/workers, are left out as well.
- NeatJS `Neat.getFittest`, `Neat.getAverage` and `Neat.export`. These are reporting helpers outside the generation bookkeeping.
- The arithmetic of `multi.activateSerializedNetwork`: the squash and the weighted sums are abstract functions. Only the record walk, the cursor and the writes to `A` and `S` are modelled.
- NeatJS `Network.merge`, `serialize`, `deserialize`, `graph` and `standalone`. `merge` leaves the nodes' adjacency lists stale. `serialize` and `deserialize` call a `Node.deserialize` that does not exist. `graph` and `standalone` are layout and code generation.
- The architect's `Perceptron`, `LSTM`, `GRU`, `NARX`, `Hopfield` and `Random` bodies. They rely on Group and Layer files that are not part of this model. Only the layer-count checks of `Perceptron`, `LSTM` and `GRU` are modelled.
- NeatArchitect.Construct: stated over the arena after `new Network(0, 0)`, with nodes named by their arena positions. A `Group` or `Layer` entry is given by its members' positions, because the Group and Layer classes are not part of this model.
- Tetris: drawing, timers and input (`start`, `update`, `update*Display`, every `draw*`, `handleInput`), main.js and `AIController.makeMove`. They need the DOM and the clock.
- Cerebrum NetworkVisualizer.js and the fitness function passed to `Neuroevolution`. The first is display code and the second is supplied by the caller.
- Rust `gen_range`'s float arithmetic is exact. `next_f64` divides exactly, with no rounding.
- NeatNetwork.Network.constructor: `input` and `output` are whole numbers, so the throw of network.js:19-21 for an `undefined` size has no counterpart.
- NeatNetwork.Network.Remove: the ungate loop is the corrected one of the Findings row, over a copy of the node's `gated` list (`UngateAll`). The loop as written is the function `UngateLive`, shown to skip every second gated connection (`UngateLiveSkips`); `Remove` does not run it.
- NeatNetwork.Network.Remove: the bridging (every old source projects to every old target) is proved for a node whose lists are filed as `connect` files them (`InsLinked`, `OutsLinked`). `ConnectedKeepsLinked` shows that `connect` keeps that filing; that every other operation keeps it is not proved.
- NeatNetwork.Network.Detach: the same hypothesis as `Remove` for the bridging.
- NeatNetwork.Network.SubNode: the same hypothesis as `Remove` for the bridging.
- NeatNetwork.Network.DropInputs: the collected sources are stated for an in-list filed as `connect` files it; on any other list only the frame and the gaters are stated.
- NeatNetwork.Network.DropOutputs: the collected targets are stated for an out-list filed as `connect` files it; on any other list only the frame and the gaters are stated.
- NeatNetwork.Network.Remove: that it cannot throw for a node in `nodes`, and that the node ends with empty in-, out- and gated lists, is proved under the filing above and the gating bookkeeping `GatesKept`. `connect`, `gate`, `ungate`, `disconnect` and the splice of `remove` are shown to keep `GatesKept` (`AfterConnectKeeps`, `NetGateKeeps`, `NetUngateKeeps`, `NetDisconnectKeeps`, `RemovedKeeps`); that the constructor and the other mutation operators establish it is not proved.
- NeatNetwork.Network.Remove: no statement that `connections` and `selfconns` keep no entry ending at the node. The model does not tie those lists to the nodes' own lists. `connect(node, node)` appends the node's self-connection to `selfconns` on every call (network.js:126-139, node.js:237-244), and one `disconnect(node, node)` drops only the first such entry.
- NeatNetwork.Network.Detach: no throw and the emptied lists are proved under the same two hypotheses as `Remove`; the entries of `connections` and `selfconns` are not tracked, as for `Remove`.
- NeatNetwork.Network.Unwire: no throw and the emptied in- and out-lists are proved under the filing and `GatesKept`; the entries of `connections` and `selfconns` are not tracked, as for `Remove`.
- NeatNetwork.Network.SubNode: no throw for a drawn node in range, and its emptied lists, are proved under the same two hypotheses as `Remove`.
- NeatNetwork.Network.DropInputs: no throw is proved for a filed in-list under `GatesKept`; on any other list a throw is not ruled out.
- NeatNetwork.Network.DropIn: a throw is stated to come only from a position past the end or from a throwing `NetDisconnect`, and is ruled out only for a filed in-list under `GatesKept`.
- NeatNetwork.Network.DropOutputs: no throw is proved for a filed out-list under `GatesKept`; on any other list a throw is not ruled out.
- NeatNetwork.Network.DropOut: a throw is stated to come only from a position past the end or from a throwing `NetDisconnect`, and is ruled out only for a filed out-list under `GatesKept`.
- CerebrumNetwork.ToUpper: upper-cases the ASCII letters only. `toUpperCase` also maps other letters (`ı` to `I`, `ß` to `SS`), and those mappings are not modelled.
- CerebrumNetwork.Network.GetNode: inherits the ASCII-only `ToUpper`. A type whose full upper-casing is a role name but whose ASCII upper-casing is not, such as `ınput` with a dotless `ı`, is looked up by the source and answered `null` by the model.
- NeatDriver.Neat.constructor: the `mutationSelection` option (neat.js:45-48), a caller's replacement for `selectMutationMethod`, is not in `Options`. The model always draws with `SelectMutationMethod`.
- NeatDriver.Neat.Mutations: `apply` stands for `Network.mutate` and is total. The throws of `Network.mutate` (a missing method, ADD_NODE or MOD_WEIGHT without connections) would end `mutate` (neat.js:166) and are not propagated.
- NeatDriver.Neat.MutateGenome: the same total `apply` as `Mutations`.
- NeatDriver.Neat.Mutate: the same total `apply` as `Mutations`.
- NeatDriver.Neat.GetParent: POWER requires at least two genomes. With one genome the source reads the score of a missing second genome and throws a `TypeError`.
- NeatDriver.Neat.Evolve: requires a population that can be ranked: its last genome is unscored, or every genome is scored. It also requires `elitism` no larger than the population. Otherwise the sort compares `NaN`s, and the source pushes `undefined` elites.
- NeatDriver.Neat.Sort: requires every genome to be scored. `Array.prototype.sort` with a `NaN` comparison gives an order the language does not fix.
- NeatDriver.Neat.MutatedAll: states that the size is kept and that a genome whose draw exceeds `mutationRate` is unchanged. The mutated genomes are given by `Mutations`, whose steps apply `Network.mutate` as a parameter.
- NeatMulti.DeserializeDataSet: requires a header of two whole sizes (or no numeric header), and not the case where both sizes are 0 with cells after them. There the loop bound is `Infinity` and the loop never ends.
- NeatMultiRun.ActivateSerializedNetwork: requires data that reads to the end as records whose indices lie inside `A`, `S` and the squash list. Malformed data (reads of `undefined` and `NaN`) is not modelled.
- CerebrumNeuroevolution.Neuroevolution.Evolve: requires a non-empty population and at least one input and one output node. It also requires that the species averages do not make the loop run forever: a positive average over a total of 0 gives infinitely many children to make. The source crashes or hangs in those cases.
- CerebrumNeuroevolution.Neuroevolution.PickEndpoints: requires at least one input and one output node. Without them the source indexes an empty list and builds a gene with `undefined` ends.
- CerebrumNeuroevolution.LinkStepOf: requires at least one input and one output node. The source's constructor defaults both counts to 0 (Neuroevolution.js:30-31). With no such nodes `linkMutate` picks `undefined` ends (Neuroevolution.js:107-108), and the next `getNetwork` throws at `gene.in.includes` (Genome.js:26); that crash is not modelled.
- CerebrumNeuroevolution.MutatedGenome: requires at least one input and one output node. The source's constructor defaults both counts to 0 (Neuroevolution.js:30-31). With no such nodes `linkMutate` picks `undefined` ends (Neuroevolution.js:107-108), and the next `getNetwork` throws at `gene.in.includes` (Genome.js:26); that crash is not modelled.
- CerebrumNeuroevolution.Neuroevolution.LinkMutate: requires at least one input and one output node. The source's constructor defaults both counts to 0 (Neuroevolution.js:30-31). With no such nodes `linkMutate` picks `undefined` ends (Neuroevolution.js:107-108), and the next `getNetwork` throws at `gene.in.includes` (Genome.js:26); that crash is not modelled.
- CerebrumNeuroevolution.Neuroevolution.MutateGenome: requires at least one input and one output node. The source's constructor defaults both counts to 0 (Neuroevolution.js:30-31). With no such nodes `linkMutate` picks `undefined` ends (Neuroevolution.js:107-108), and the next `getNetwork` throws at `gene.in.includes` (Genome.js:26); that crash is not modelled.
- CerebrumNeuroevolution.Neuroevolution.LinkStep: requires at least one input and one output node. The source's constructor defaults both counts to 0 (Neuroevolution.js:30-31). With no such nodes `linkMutate` picks `undefined` ends (Neuroevolution.js:107-108), and the next `getNetwork` throws at `gene.in.includes` (Genome.js:26); that crash is not modelled.
- CerebrumNeuroevolution.Neuroevolution.Mutate: requires at least one input and one output node. The source's constructor defaults both counts to 0 (Neuroevolution.js:30-31). With no such nodes `linkMutate` picks `undefined` ends (Neuroevolution.js:107-108), and the next `getNetwork` throws at `gene.in.includes` (Genome.js:26); that crash is not modelled.
- CerebrumNeuroevolution.Neuroevolution.Renew: requires at least one input and one output node. The source's constructor defaults both counts to 0 (Neuroevolution.js:30-31). With no such nodes `linkMutate` picks `undefined` ends (Neuroevolution.js:107-108), and the next `getNetwork` throws at `gene.in.includes` (Genome.js:26); that crash is not modelled.
- CerebrumNeuroevolution.Neuroevolution.CreateInitialPopulation: requires at least one input and one output node. The source's constructor defaults both counts to 0 (Neuroevolution.js:30-31). With no such nodes `linkMutate` picks `undefined` ends (Neuroevolution.js:107-108), and the next `getNetwork` throws at `gene.in.includes` (Genome.js:26); that crash is not modelled.
- TetrisBoard.Board.Merge: requires every solid cell of the piece to be on the board. The game can merge a piece that did not fit: the key listener stays registered after game over (tetris.js:205) and `handleInput` has no game-over check (tetris.js:304-316), so ArrowDown still reaches `lockPiece` (tetris.js:335, 343). The requires holds all the same, because `Game.Valid` keeps every piece's cells on the board (`Encloses`): the start position (3, 0) lies on the 10×20 board for every shape (`StartEncloses`), and a move or rotation is only kept when the piece stays inside.
- NeatCross.CrossOver: both parents live in one arena. In the source every network owns its node objects, and the arena represents the same sharing through positions.

## Findings

| source | as written | input that shows it | evidently intended | confidence | as-written member | corrected member |
|---|---|---|---|---|---|---|
| Javascript/Tetris/src/aicontroller.js:114-120 | `rotatePiece` calls `piece.rotate()` on a JSON copy of the piece. The copy has no methods, so the call throws and `findBestMove` throws, at rotation 1 at the latest | any board and any piece | turn the copy with the same matrix transform as `Piece.rotate`, and keep the turn only when it fits | not executed | TetrisAi.AIController.FindBestMove | TetrisAi.AIController.FindBestMoveFixed |
| Javascript/Tetris/src/aicontroller.js:94-112 | `simulateGameState` returns `{grid}` without `width` or `height`. Every metric loop then runs zero times, and every move scores 0 | any candidate with rotation 0 | score the simulated board with its real dimensions | not executed | TetrisAi.AIController.EvaluateMove | TetrisAi.AIController.EvaluateMoveFixed |
| Javascript/NeatJS/src/architecture/network.js:532-537 | `toJSON` writes a self-connection's gater as `gater.index` during the walk that numbers the nodes. A gater later in the list is not numbered yet, so it is written as `undefined`, and `fromJSON` of the result throws | two nodes, where node 1 gates node 0's self-connection of weight 0.5 | write every gater after all nodes are numbered, so that every reference is a position | not executed | NeatLoad.StaleGaterExample | NeatRoundTrip.RoundTrip |
| Javascript/NeatJS/src/architecture/network.js:238-240 | `remove` ungates with `for (conn of node.connections.gated)`. `ungate` splices that same list during the loop, so every second gated connection is skipped and stays gated by the removed node | a node gating two connections | ungate every connection the node gates, by walking a copy of the list | not executed | NeatNetwork.UngateLiveSkips | NeatNetwork.UngateCopyClears |

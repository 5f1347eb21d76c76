// Model of Javascript/Cerebrum/src/Network.js (the phenotype) together with
// the node record of Javascript/Cerebrum/src/Node.js, which is inlined.
//
// `nodes` and `connections` are JavaScript objects used as dictionaries. Their
// keys are never integer-like strings, so `Object.values` visits them in
// insertion order, and re-assigning an existing key keeps its position:
// `connOrder` records that order for `connections`. Only the value-setting and
// wiring logic is modelled; `calculate` and `calculateNodeValue` are sigmoid
// arithmetic and are not part of this model.

module CerebrumNetwork {
  import opened CerebrumConnection

  /** A Node.js record without its id (the id is the key it is stored under). */
  datatype NodeRec = NodeRec(value: real, bias: real, incoming: seq<ConnKey>, outgoing: seq<ConnKey>)

  /** `new Node(id, val)`: empty connection lists, bias 0. */
  function NewNode(value: real): (n: NodeRec)
    ensures n.value == value && n.bias == 0.0 && n.incoming == [] && n.outgoing == []
  {
    NodeRec(value, 0.0, [], [])
  }

  /** Result of `getNode`: a node, `null` (unknown type), or `undefined`
      (index past the end of the list). */
  datatype NodeLookup = Found(node: NodeRec) | Null | Undefined

  /** ASCII upper-casing, as `toUpperCase` does on ASCII letters. */
  function UpperChar(c: char): (u: char)
    ensures 'a' <= c <= 'z' ==> u as int == c as int - 32
    ensures !('a' <= c <= 'z') ==> u == c
  {
    if 'a' <= c <= 'z' then (c as int - 32) as char else c
  }

  function ToUpper(s: string): (u: string)
    ensures |u| == |s|
    ensures forall i :: 0 <= i < |s| ==> u[i] == UpperChar(s[i])
  {
    if s == [] then [] else [UpperChar(s[0])] + ToUpper(s[1..])
  }

  function Count<T(==)>(s: seq<T>, x: T): nat
  {
    if s == [] then 0 else (if s[0] == x then 1 else 0) + Count(s[1..], x)
  }

  predicate Distinct<T(==)>(s: seq<T>)
  {
    forall i, j :: 0 <= i < j < |s| ==> s[i] != s[j]
  }

  /** The keys of `order` that leave node `n`, in order. */
  function From(order: seq<ConnKey>, n: NodeId): seq<ConnKey>
  {
    if order == [] then []
    else (if order[0].from == n then [order[0]] else []) + From(order[1..], n)
  }

  /** The keys of `order` that enter node `n`, in order. */
  function Into(order: seq<ConnKey>, n: NodeId): seq<ConnKey>
  {
    if order == [] then []
    else (if order[0].to == n then [order[0]] else []) + Into(order[1..], n)
  }

  lemma {:induction false} CountInDistinct<T>(s: seq<T>, x: T)
    requires Distinct(s)
    ensures Count(s, x) == if x in s then 1 else 0
  {
    if s != [] {
      CountInDistinct(s[1..], x);
      assert x in s[1..] ==> s[0] != x;
    }
  }

  lemma {:induction false} FromMembers(order: seq<ConnKey>, n: NodeId, k: ConnKey)
    ensures k in From(order, n) <==> k in order && k.from == n
  {
    if order != [] {
      FromMembers(order[1..], n, k);
    }
  }

  lemma {:induction false} IntoMembers(order: seq<ConnKey>, n: NodeId, k: ConnKey)
    ensures k in Into(order, n) <==> k in order && k.to == n
  {
    if order != [] {
      IntoMembers(order[1..], n, k);
    }
  }

  lemma {:induction false} FromDistinct(order: seq<ConnKey>, n: NodeId)
    requires Distinct(order)
    ensures Distinct(From(order, n))
  {
    if order != [] {
      FromDistinct(order[1..], n);
      FromMembers(order[1..], n, order[0]);
    }
  }

  lemma {:induction false} IntoDistinct(order: seq<ConnKey>, n: NodeId)
    requires Distinct(order)
    ensures Distinct(Into(order, n))
  {
    if order != [] {
      IntoDistinct(order[1..], n);
      IntoMembers(order[1..], n, order[0]);
    }
  }

  /** The number of connections `createAllConnections` adds. */
  function AllConnectionsCount(i: nat, h: nat, o: nat): nat
  {
    i * h + i + h * o + h
  }

  /** The keys `createAllConnections` visits, in visiting order: for each input,
      its hidden targets and then BIAS->input; then for each hidden node, its
      output targets and then BIAS->hidden. */
  function FanOut(from: NodeId, targets: seq<NodeId>): (r: seq<ConnKey>)
    ensures |r| == |targets|
    ensures forall k :: 0 <= k < |r| ==> r[k] == ConnKey(from, targets[k])
  {
    if targets == [] then [] else [ConnKey(from, targets[0])] + FanOut(from, targets[1..])
  }

  function LayerKeys(sources: seq<NodeId>, targets: seq<NodeId>): seq<ConnKey>
  {
    if sources == [] then []
    else FanOut(sources[0], targets) + [ConnKey(Bias, sources[0])] + LayerKeys(sources[1..], targets)
  }

  lemma {:induction false} LayerKeysLength(sources: seq<NodeId>, targets: seq<NodeId>)
    ensures |LayerKeys(sources, targets)| == |sources| * (|targets| + 1)
  {
    if sources != [] {
      LayerKeysLength(sources[1..], targets);
    }
  }

  lemma {:induction false} LayerKeysAppend(a: seq<NodeId>, b: seq<NodeId>, targets: seq<NodeId>)
    ensures LayerKeys(a + b, targets) == LayerKeys(a, targets) + LayerKeys(b, targets)
  {
    if a == [] {
      assert a + b == b;
    } else {
      assert (a + b)[1..] == a[1..] + b;
      LayerKeysAppend(a[1..], b, targets);
    }
  }

  function AllKeys(inputs: seq<NodeId>, hidden: seq<NodeId>, outputs: seq<NodeId>): (r: seq<ConnKey>)
    ensures |r| == AllConnectionsCount(|inputs|, |hidden|, |outputs|)
  {
    LayerKeysLength(inputs, hidden);
    LayerKeysLength(hidden, outputs);
    LayerKeys(inputs, hidden) + LayerKeys(hidden, outputs)
  }

  /** `randomWeight()` for the draw `r`: `r * 4 - 2`. */
  function RandomWeight(r: real): (w: real)
    requires 0.0 <= r < 1.0
    ensures -2.0 <= w < 2.0
  {
    r * 4.0 - 2.0
  }

  /** The weight of the `k`-th connection `createAllConnections` adds. */
  function AllWeight(randomWeights: bool, draws: seq<real>, k: nat): (w: real)
    requires k < |draws| ==> 0.0 <= draws[k] < 1.0
    ensures !randomWeights ==> w == 1.0
  {
    if randomWeights && k < |draws| then RandomWeight(draws[k]) else 1.0
  }

  predicate ValidDraws(draws: seq<real>)
  {
    forall k :: 0 <= k < |draws| ==> 0.0 <= draws[k] < 1.0
  }

  /** `connections` after adding `keys` with the given weights in order. */
  function AddAll(conns: map<ConnKey, Connection>, keys: seq<ConnKey>, randomWeights: bool, draws: seq<real>, start: nat): map<ConnKey, Connection>
    requires ValidDraws(draws)
    decreases |keys|
  {
    if keys == [] then conns
    else
      AddAll(conns[keys[0] := Connection(keys[0].from, keys[0].to, AllWeight(randomWeights, draws, start))],
             keys[1..], randomWeights, draws, start + 1)
  }

  /** `connOrder` after adding `keys`: new keys go to the end, re-added ones
      keep their place. */
  function AppendNew(order: seq<ConnKey>, keys: seq<ConnKey>): seq<ConnKey>
    decreases |keys|
  {
    if keys == [] then order
    else AppendNew(if keys[0] in order then order else order + [keys[0]], keys[1..])
  }

  lemma {:induction false} AppendNewFacts(order: seq<ConnKey>, keys: seq<ConnKey>)
    requires Distinct(order)
    ensures Distinct(AppendNew(order, keys))
    ensures forall k :: k in AppendNew(order, keys) <==> k in order || k in keys
    ensures order <= AppendNew(order, keys)
    decreases |keys|
  {
    if keys != [] {
      var o := if keys[0] in order then order else order + [keys[0]];
      AppendNewFacts(o, keys[1..]);
      assert forall k :: k in keys <==> k == keys[0] || k in keys[1..];
    }
  }

  lemma {:induction false} AppendNewFresh(order: seq<ConnKey>, keys: seq<ConnKey>)
    requires Distinct(keys) && forall k :: k in keys ==> k !in order
    ensures AppendNew(order, keys) == order + keys
    decreases |keys|
  {
    if keys != [] {
      AppendNewFresh(order + [keys[0]], keys[1..]);
      assert order + [keys[0]] + keys[1..] == order + keys;
    }
  }

  lemma {:induction false} AddAllKeys(conns: map<ConnKey, Connection>, keys: seq<ConnKey>, randomWeights: bool, draws: seq<real>, start: nat)
    requires ValidDraws(draws)
    ensures forall k :: k in AddAll(conns, keys, randomWeights, draws, start) <==> k in conns || k in keys
    ensures forall k :: k in AddAll(conns, keys, randomWeights, draws, start) && k !in keys ==>
              AddAll(conns, keys, randomWeights, draws, start)[k] == conns[k]
    decreases |keys|
  {
    if keys != [] {
      AddAllKeys(conns[keys[0] := Connection(keys[0].from, keys[0].to, AllWeight(randomWeights, draws, start))],
                 keys[1..], randomWeights, draws, start + 1);
    }
  }

  /** With distinct keys, the `k`-th key carries the `k`-th weight. */
  lemma {:induction false} AddAllAt(conns: map<ConnKey, Connection>, keys: seq<ConnKey>, randomWeights: bool, draws: seq<real>, start: nat, k: nat)
    requires ValidDraws(draws) && Distinct(keys) && k < |keys|
    ensures keys[k] in AddAll(conns, keys, randomWeights, draws, start)
    ensures AddAll(conns, keys, randomWeights, draws, start)[keys[k]]
            == Connection(keys[k].from, keys[k].to, AllWeight(randomWeights, draws, start + k))
    decreases |keys|
  {
    var c := conns[keys[0] := Connection(keys[0].from, keys[0].to, AllWeight(randomWeights, draws, start))];
    AddAllKeys(c, keys[1..], randomWeights, draws, start + 1);
    if k > 0 {
      AddAllAt(c, keys[1..], randomWeights, draws, start + 1, k - 1);
    } else {
      assert keys[0] !in keys[1..];
    }
  }

  lemma {:induction false} FanOutDistinct(from: NodeId, targets: seq<NodeId>)
    requires Distinct(targets)
    ensures Distinct(FanOut(from, targets))
  {
  }

  lemma {:induction false} LayerKeysMembers(sources: seq<NodeId>, targets: seq<NodeId>, k: ConnKey)
    ensures k in LayerKeys(sources, targets) <==>
              (k.from in sources && k.to in targets) || (k.from == Bias && k.to in sources)
  {
    if sources != [] {
      LayerKeysMembers(sources[1..], targets, k);
      assert k in FanOut(sources[0], targets) <==> k.from == sources[0] && k.to in targets;
    }
  }

  lemma {:induction false} LayerKeysDistinct(sources: seq<NodeId>, targets: seq<NodeId>)
    requires Distinct(sources) && Distinct(targets) && Bias !in targets && Bias !in sources
    ensures Distinct(LayerKeys(sources, targets))
  {
    if sources != [] {
      LayerKeysDistinct(sources[1..], targets);
      var head := FanOut(sources[0], targets) + [ConnKey(Bias, sources[0])];
      var tail := LayerKeys(sources[1..], targets);
      FanOutDistinct(sources[0], targets);
      assert Distinct(head);
      assert sources[0] !in sources[1..];
      forall i, j | 0 <= i < |head| && 0 <= j < |tail|
        ensures head[i] != tail[j]
      {
        LayerKeysMembers(sources[1..], targets, tail[j]);
      }
      assert LayerKeys(sources, targets) == head + tail;
    }
  }

  /** With distinct node lists, every key `createAllConnections` visits is new,
      so it adds exactly `I*H + I + H*O + H` connections. */
  lemma {:induction false} AllKeysDistinct(inputs: seq<NodeId>, hidden: seq<NodeId>, outputs: seq<NodeId>)
    requires Distinct(inputs) && Distinct(hidden) && Distinct(outputs)
    requires forall n :: n in inputs ==> n.Input?
    requires forall n :: n in hidden ==> n.Hidden?
    requires forall n :: n in outputs ==> n.Output?
    ensures Distinct(AllKeys(inputs, hidden, outputs))
  {
    LayerKeysDistinct(inputs, hidden);
    LayerKeysDistinct(hidden, outputs);
    var a := LayerKeys(inputs, hidden);
    var b := LayerKeys(hidden, outputs);
    forall i, j | 0 <= i < |a| && 0 <= j < |b|
      ensures a[i] != b[j]
    {
      LayerKeysMembers(inputs, hidden, a[i]);
      LayerKeysMembers(hidden, outputs, b[j]);
    }
  }

  /** Without hidden nodes no connection reaches an output. */
  lemma {:induction false} NoHiddenNoOutputs(inputs: seq<NodeId>, outputs: seq<NodeId>, k: ConnKey)
    requires forall n :: n in inputs ==> n.Input?
    requires k in AllKeys(inputs, [], outputs)
    ensures !k.to.Output?
  {
    LayerKeysMembers(inputs, [], k);
    LayerKeysMembers([], outputs, k);
  }

  /** The nodes `createNodes(i, h, o)` leaves in a new network. */
  predicate InLayout(n: NodeId, i: nat, h: nat, o: nat)
  {
    match n
    case Bias => true
    case Input(k) => k < i
    case Hidden(k) => k < h
    case Output(k) => k < o
  }

  /** Adding the next input to a network of layout `(i, h, o)` gives layout
      `(i + 1, h, o)`; likewise for hidden and output nodes. */
  lemma InputLayout(m: map<NodeId, NodeRec>, r: NodeRec, i: nat, next: nat, h: nat, o: nat)
    requires forall n :: n in m <==> InLayout(n, i, h, o)
    requires next == i + 1
    ensures forall n :: n in m[Input(i) := r] <==> InLayout(n, next, h, o)
  {
  }

  lemma HiddenLayout(m: map<NodeId, NodeRec>, r: NodeRec, i: nat, h: nat, next: nat, o: nat)
    requires forall n :: n in m <==> InLayout(n, i, h, o)
    requires next == h + 1
    ensures forall n :: n in m[Hidden(h) := r] <==> InLayout(n, i, next, o)
  {
  }

  lemma OutputLayout(m: map<NodeId, NodeRec>, r: NodeRec, i: nat, h: nat, o: nat, next: nat)
    requires forall n :: n in m <==> InLayout(n, i, h, o)
    requires next == o + 1
    ensures forall n :: n in m[Output(o) := r] <==> InLayout(n, i, h, next)
  {
  }

  class Network {
    var nodes: map<NodeId, NodeRec>
    var inputs: seq<NodeId>
    var hidden: seq<NodeId>
    var outputs: seq<NodeId>
    var connections: map<ConnKey, Connection>
    var connOrder: seq<ConnKey>

    /** The dictionary shape every operation keeps: BIAS exists, every listed
        node exists, inputs and outputs are numbered by position, and
        `connOrder` lists each connection key once. */
    ghost predicate Valid()
      reads this
    {
      NodesValid() && ConnectionsValid()
    }

    ghost predicate NodesValid()
      reads this`nodes, this`inputs, this`hidden, this`outputs
    {
      && Bias in nodes
      && (forall i :: 0 <= i < |inputs| ==> inputs[i] == Input(i) && inputs[i] in nodes)
      && (forall i :: 0 <= i < |outputs| ==> outputs[i] == Output(i) && outputs[i] in nodes)
      && (forall n :: n in hidden ==> n.Hidden? && n in nodes)
    }

    ghost predicate ConnectionsValid()
      reads this`connections, this`connOrder
    {
      && Distinct(connOrder)
      && (forall k :: k in connections <==> k in connOrder)
      && (forall k :: k in connections ==> connections[k].from == k.from && connections[k].to == k.to)
    }

    /** The constructor: BIAS with value 1, then `createNodes`, then
        `createAllConnections(true)` when asked. */
    constructor (inputNodes: nat, hiddenNodes: nat, outputNodes: nat, createAll: bool, draws: seq<real>)
      requires ValidDraws(draws)
      requires createAll ==> |draws| >= AllConnectionsCount(inputNodes, hiddenNodes, outputNodes)
      ensures Valid()
      ensures forall n :: n in nodes <==> InLayout(n, inputNodes, hiddenNodes, outputNodes)
      ensures nodes[Bias] == NewNode(1.0)
      ensures |inputs| == inputNodes && |hidden| == hiddenNodes && |outputs| == outputNodes
      ensures forall i :: 0 <= i < hiddenNodes ==> hidden[i] == Hidden(i)
      ensures !createAll ==> connections == map[] && connOrder == []
      ensures createAll ==> connOrder == AllKeys(inputs, hidden, outputs)
      ensures createAll ==> |connections| == AllConnectionsCount(inputNodes, hiddenNodes, outputNodes)
    {
      nodes := map[Bias := NewNode(1.0)];
      inputs := [];
      hidden := [];
      outputs := [];
      connections := map[];
      connOrder := [];
      new;
      forall n
        ensures n in nodes <==> InLayout(n, 0, 0, 0)
      {
        if n != Bias {
          assert !InLayout(n, 0, 0, 0);
        }
      }
      CreateNodes(inputNodes, hiddenNodes, outputNodes);
      if createAll {
        AllKeysDistinct(inputs, hidden, outputs);
        CreateAllConnections(true, draws);
        AppendNewFresh([], AllKeys(inputs, hidden, outputs));
        KeysCardinality(connections, connOrder);
      }
    }

    /** `createNodes`: `addInput` `inputNum` times, then `addHidden`, then
        `addOutput`. */
    method CreateNodes(inputNum: nat, hiddenNum: nat, outputNum: nat)
      requires Valid()
      requires inputs == [] && hidden == [] && outputs == []
      requires forall n :: n in nodes <==> InLayout(n, 0, 0, 0)
      modifies this`nodes, this`inputs, this`hidden, this`outputs
      ensures Valid()
      ensures forall n :: n in nodes <==> InLayout(n, inputNum, hiddenNum, outputNum)
      ensures nodes[Bias] == old(nodes[Bias])
      ensures |inputs| == inputNum && |outputs| == outputNum
      ensures |hidden| == hiddenNum && forall i :: 0 <= i < hiddenNum ==> hidden[i] == Hidden(i)
    {
      CreateInputs(inputNum);
      CreateHidden(inputNum, hiddenNum);
      CreateOutputs(inputNum, hiddenNum, outputNum);
    }

    /** The input loop of `createNodes`. */
    method CreateInputs(inputNum: nat)
      requires Valid()
      requires inputs == [] && hidden == [] && outputs == []
      requires forall n :: n in nodes <==> InLayout(n, 0, 0, 0)
      modifies this`nodes, this`inputs
      ensures Valid() && |inputs| == inputNum && hidden == [] && outputs == []
      ensures forall n :: n in nodes <==> InLayout(n, inputNum, 0, 0)
      ensures nodes[Bias] == old(nodes[Bias])
    {
      for i := 0 to inputNum
        invariant Valid() && |inputs| == i && hidden == [] && outputs == []
        invariant forall n :: n in nodes <==> InLayout(n, i, 0, 0)
        invariant nodes[Bias] == old(nodes[Bias])
      {
        InputLayout(nodes, NewNode(0.0), i, i + 1, 0, 0);
        AddInput(0.0);
      }
    }

    /** The hidden loop of `createNodes`. */
    method CreateHidden(inputNum: nat, hiddenNum: nat)
      requires Valid() && |inputs| == inputNum && hidden == [] && outputs == []
      requires forall n :: n in nodes <==> InLayout(n, inputNum, 0, 0)
      modifies this`nodes, this`hidden
      ensures Valid() && |inputs| == inputNum && |hidden| == hiddenNum && outputs == []
      ensures forall k :: 0 <= k < hiddenNum ==> hidden[k] == Hidden(k)
      ensures forall n :: n in nodes <==> InLayout(n, inputNum, hiddenNum, 0)
      ensures nodes[Bias] == old(nodes[Bias])
    {
      for j := 0 to hiddenNum
        invariant Valid() && |inputs| == inputNum && |hidden| == j && outputs == []
        invariant forall k :: 0 <= k < j ==> hidden[k] == Hidden(k)
        invariant forall n :: n in nodes <==> InLayout(n, inputNum, j, 0)
        invariant nodes[Bias] == old(nodes[Bias])
      {
        HiddenLayout(nodes, NewNode(0.0), inputNum, j, j + 1, 0);
        AddHidden();
      }
    }

    /** The output loop of `createNodes`. */
    method CreateOutputs(inputNum: nat, hiddenNum: nat, outputNum: nat)
      requires Valid() && |inputs| == inputNum && |hidden| == hiddenNum && outputs == []
      requires forall m :: 0 <= m < hiddenNum ==> hidden[m] == Hidden(m)
      requires forall n :: n in nodes <==> InLayout(n, inputNum, hiddenNum, 0)
      modifies this`nodes, this`outputs
      ensures Valid() && |inputs| == inputNum && |hidden| == hiddenNum && |outputs| == outputNum
      ensures forall m :: 0 <= m < hiddenNum ==> hidden[m] == Hidden(m)
      ensures forall n :: n in nodes <==> InLayout(n, inputNum, hiddenNum, outputNum)
      ensures nodes[Bias] == old(nodes[Bias])
    {
      for k := 0 to outputNum
        invariant Valid() && |inputs| == inputNum && |hidden| == hiddenNum && |outputs| == k
        invariant forall m :: 0 <= m < hiddenNum ==> hidden[m] == Hidden(m)
        invariant forall n :: n in nodes <==> InLayout(n, inputNum, hiddenNum, k)
        invariant nodes[Bias] == old(nodes[Bias])
      {
        OutputLayout(nodes, NewNode(0.0), inputNum, hiddenNum, k, k + 1);
        AddOutput();
      }
    }

    /** `addInput(value)`: node `INPUT:<number of inputs>`. */
    method AddInput(value: real)
      requires Valid()
      modifies this`nodes, this`inputs
      ensures Valid()
      ensures inputs == old(inputs) + [Input(|old(inputs)|)]
      ensures nodes == old(nodes)[Input(|old(inputs)|) := NewNode(value)]
    {
      var id := Input(|inputs|);
      nodes := nodes[id := NewNode(value)];
      inputs := inputs + [id];
    }

    /** `addHidden()`: node `HIDDEN:<number of hidden nodes>`. When the hidden
        list came from a genome this name can already exist; the node is then
        replaced by a fresh one and listed twice, as in the source. */
    method AddHidden()
      requires Valid()
      modifies this`nodes, this`hidden
      ensures Valid()
      ensures hidden == old(hidden) + [Hidden(|old(hidden)|)]
      ensures nodes == old(nodes)[Hidden(|old(hidden)|) := NewNode(0.0)]
    {
      var id := Hidden(|hidden|);
      nodes := nodes[id := NewNode(0.0)];
      hidden := hidden + [id];
    }

    /** `addOutput()`: node `OUTPUT:<number of outputs>`. */
    method AddOutput()
      requires Valid()
      modifies this`nodes, this`outputs
      ensures Valid()
      ensures outputs == old(outputs) + [Output(|old(outputs)|)]
      ensures nodes == old(nodes)[Output(|old(outputs)|) := NewNode(0.0)]
    {
      var id := Output(|outputs|);
      nodes := nodes[id := NewNode(0.0)];
      outputs := outputs + [id];
    }

    /** `getNode(type, index)`. */
    function GetNode(kind: string, index: int): (r: NodeLookup)
      reads this
      requires Valid()
      ensures ToUpper(kind) !in {"INPUT", "HIDDEN", "OUTPUT"} <==> r == Null
      ensures ToUpper(kind) == "INPUT" ==>
                (0 <= index < |inputs| <==> r.Found?) && (r.Found? ==> r.node == nodes[Input(index)])
      ensures ToUpper(kind) == "OUTPUT" ==>
                (0 <= index < |outputs| <==> r.Found?) && (r.Found? ==> r.node == nodes[Output(index)])
      ensures ToUpper(kind) == "HIDDEN" ==>
                (0 <= index < |hidden| <==> r.Found?) && (r.Found? ==> r.node == nodes[hidden[index]])
    {
      var list := match ToUpper(kind)
        case "INPUT" => Some(inputs)
        case "HIDDEN" => Some(hidden)
        case "OUTPUT" => Some(outputs)
        case _ => None;
      if list.None? then Null
      else if 0 <= index < |list.value| then Found(nodes[list.value[index]])
      else Undefined
    }

    /** `getConnection(id)`: the connection stored under the id, if any. */
    function GetConnection(key: ConnKey): (r: Option<Connection>)
      reads this
      requires Valid()
      ensures r.Some? <==> key in connOrder
      ensures r.Some? ==> r.value.from == key.from && r.value.to == key.to
    {
      if key in connections then Some(connections[key]) else None
    }

    /** `addConnection(in, out, weight)`: stores under "in:out", replacing an
        existing connection between the same two nodes. */
    method AddConnection(inId: NodeId, outId: NodeId, weight: real)
      requires ConnectionsValid()
      modifies this`connections, this`connOrder
      ensures ConnectionsValid()
      ensures connections == old(connections)[ConnKey(inId, outId) := Connection(inId, outId, weight)]
      ensures connOrder == AppendNew(old(connOrder), [ConnKey(inId, outId)])
    {
      var key := ConnKey(inId, outId);
      connections := connections[key := Connection(inId, outId, weight)];
      if key !in connOrder {
        connOrder := connOrder + [key];
      }
    }

    /** `createAllConnections(randomWeights)`. Draw `k` of `draws` is the
        `Math.random()` behind the `k`-th weight. */
    method CreateAllConnections(randomWeights: bool, draws: seq<real>)
      requires Valid() && ValidDraws(draws)
      requires randomWeights ==> |draws| >= AllConnectionsCount(|inputs|, |hidden|, |outputs|)
      modifies this`connections, this`connOrder
      ensures Valid()
      ensures connections == AddAll(old(connections), AllKeys(inputs, hidden, outputs), randomWeights, draws, 0)
      ensures connOrder == AppendNew(old(connOrder), AllKeys(inputs, hidden, outputs))
    {
      ConnectAll(inputs, hidden, outputs, randomWeights, draws);
    }

    /** The two outer `forEach` loops of `createAllConnections` in turn. */
    method ConnectAll(ins: seq<NodeId>, hid: seq<NodeId>, outs: seq<NodeId>, randomWeights: bool, draws: seq<real>)
      requires ConnectionsValid() && ValidDraws(draws)
      requires randomWeights ==> |draws| >= |AllKeys(ins, hid, outs)|
      modifies this`connections, this`connOrder
      ensures ConnectionsValid()
      ensures connections == AddAll(old(connections), AllKeys(ins, hid, outs), randomWeights, draws, 0)
      ensures connOrder == AppendNew(old(connOrder), AllKeys(ins, hid, outs))
    {
      ghost var first := LayerKeys(ins, hid);
      ghost var second := LayerKeys(hid, outs);
      ghost var all := AllKeys(ins, hid, outs);
      assert all == first + second;
      var secondStart := |ins| * (|hid| + 1);
      LayerKeysLength(ins, hid);
      assert |first| == secondStart;
      assert randomWeights ==> |draws| >= |first| + |second|;
      ghost var start := connections;
      ghost var startOrder := connOrder;
      ConnectLayer(ins, hid, randomWeights, draws, 0);
      assert connections == AddAll(start, first, randomWeights, draws, 0);
      ghost var mid := connections;
      ghost var midOrder := connOrder;
      ConnectLayer(hid, outs, randomWeights, draws, secondStart);
      assert connections == AddAll(mid, second, randomWeights, draws, |first|);
      AddAllTwice(start, first, second, all, mid, connections, randomWeights, draws, 0);
      AppendNewTwice(startOrder, first, second, all, midOrder, connOrder);
    }

    /** One of the two outer `forEach` loops of `createAllConnections`, taking
        its weights from draw `start` on. */
    method ConnectLayer(sources: seq<NodeId>, targets: seq<NodeId>, randomWeights: bool, draws: seq<real>, start: nat)
      requires ConnectionsValid() && ValidDraws(draws)
      requires randomWeights ==> |draws| >= start + |LayerKeys(sources, targets)|
      modifies this`connections, this`connOrder
      ensures ConnectionsValid()
      ensures connections == AddAll(old(connections), LayerKeys(sources, targets), randomWeights, draws, start)
      ensures connOrder == AppendNew(old(connOrder), LayerKeys(sources, targets))
    {
      var drawn := start;
      for i := 0 to |sources|
        invariant ConnectionsValid()
        invariant drawn == start + |LayerKeys(sources[..i], targets)|
        invariant connections == AddAll(old(connections), LayerKeys(sources[..i], targets), randomWeights, draws, start)
        invariant connOrder == AppendNew(old(connOrder), LayerKeys(sources[..i], targets))
      {
        ConnectSourceAt(sources, i, targets, randomWeights, draws, start, drawn, old(connections), old(connOrder));
        drawn := drawn + |targets| + 1;
      }
      assert sources[..|sources|] == sources;
    }

    /** One turn of the outer `forEach` of `ConnectLayer`: source `i`, with
        its weights from draw `drawn` on. */
    method ConnectSourceAt(sources: seq<NodeId>, i: nat, targets: seq<NodeId>, randomWeights: bool, draws: seq<real>,
                           start: nat, drawn: nat, ghost conns: map<ConnKey, Connection>, ghost order: seq<ConnKey>)
      requires ConnectionsValid() && ValidDraws(draws) && i < |sources|
      requires randomWeights ==> |draws| >= start + |LayerKeys(sources, targets)|
      requires drawn == start + |LayerKeys(sources[..i], targets)|
      requires connections == AddAll(conns, LayerKeys(sources[..i], targets), randomWeights, draws, start)
      requires connOrder == AppendNew(order, LayerKeys(sources[..i], targets))
      modifies this`connections, this`connOrder
      ensures ConnectionsValid()
      ensures drawn + |targets| + 1 == start + |LayerKeys(sources[..i + 1], targets)|
      ensures connections == AddAll(conns, LayerKeys(sources[..i + 1], targets), randomWeights, draws, start)
      ensures connOrder == AppendNew(order, LayerKeys(sources[..i + 1], targets))
    {
      ghost var done := LayerKeys(sources[..i], targets);
      ghost var step := FanOut(sources[i], targets) + [ConnKey(Bias, sources[i])];
      ghost var next := LayerKeys(sources[..i + 1], targets);
      LayerKeysStep(sources, i, targets);
      ghost var mid := connections;
      ghost var midOrder := connOrder;
      ConnectSource(sources[i], targets, randomWeights, draws, drawn);
      AddAllTwice(conns, done, step, next, mid, connections, randomWeights, draws, start);
      AppendNewTwice(order, done, step, next, midOrder, connOrder);
    }

    /** The body of one outer `forEach` of `createAllConnections`: `from` to
        every target, then BIAS to `from`, with weights from draw `start` on. */
    method ConnectSource(from: NodeId, targets: seq<NodeId>, randomWeights: bool, draws: seq<real>, start: nat)
      requires ConnectionsValid() && ValidDraws(draws)
      requires randomWeights ==> |draws| >= start + |targets| + 1
      modifies this`connections, this`connOrder
      ensures ConnectionsValid()
      ensures connections == AddAll(old(connections), FanOut(from, targets) + [ConnKey(Bias, from)], randomWeights, draws, start)
      ensures connOrder == AppendNew(old(connOrder), FanOut(from, targets) + [ConnKey(Bias, from)])
    {
      ConnectTargets(from, targets, randomWeights, draws, start);
      ghost var done := FanOut(from, targets);
      var weight := if randomWeights then RandomWeight(draws[start + |targets|]) else 1.0;
      AddAllSnocFrom(old(connections), done, ConnKey(Bias, from), randomWeights, draws, start);
      AppendNewSnoc(old(connOrder), done, ConnKey(Bias, from));
      AddConnection(Bias, from, weight);
    }

    /** The inner `forEach` of `createAllConnections`: `from` to every
        target, with weights from draw `start` on. */
    method ConnectTargets(from: NodeId, targets: seq<NodeId>, randomWeights: bool, draws: seq<real>, start: nat)
      requires ConnectionsValid() && ValidDraws(draws)
      requires randomWeights ==> |draws| >= start + |targets|
      modifies this`connections, this`connOrder
      ensures ConnectionsValid()
      ensures connections == AddAll(old(connections), FanOut(from, targets), randomWeights, draws, start)
      ensures connOrder == AppendNew(old(connOrder), FanOut(from, targets))
    {
      for j := 0 to |targets|
        invariant ConnectionsValid()
        invariant connections == AddAll(old(connections), FanOut(from, targets[..j]), randomWeights, draws, start)
        invariant connOrder == AppendNew(old(connOrder), FanOut(from, targets[..j]))
      {
        ConnectTarget(from, targets, j, randomWeights, draws, start, old(connections), old(connOrder));
      }
      assert targets[..|targets|] == targets;
    }

    /** One turn of the inner `forEach` of `createAllConnections`: the
        connection from `from` to target `j`, with draw `start + j`. */
    method ConnectTarget(from: NodeId, targets: seq<NodeId>, j: nat, randomWeights: bool, draws: seq<real>, start: nat,
                         ghost conns: map<ConnKey, Connection>, ghost order: seq<ConnKey>)
      requires ConnectionsValid() && ValidDraws(draws) && j < |targets|
      requires randomWeights ==> |draws| >= start + |targets|
      requires connections == AddAll(conns, FanOut(from, targets[..j]), randomWeights, draws, start)
      requires connOrder == AppendNew(order, FanOut(from, targets[..j]))
      modifies this`connections, this`connOrder
      ensures ConnectionsValid()
      ensures connections == AddAll(conns, FanOut(from, targets[..j + 1]), randomWeights, draws, start)
      ensures connOrder == AppendNew(order, FanOut(from, targets[..j + 1]))
    {
      ghost var done := FanOut(from, targets[..j]);
      var weight := if randomWeights then RandomWeight(draws[start + j]) else 1.0;
      assert weight == AllWeight(randomWeights, draws, start + |done|);
      AddAllSnocFrom(conns, done, ConnKey(from, targets[j]), randomWeights, draws, start);
      AppendNewSnoc(order, done, ConnKey(from, targets[j]));
      FanOutSnoc(from, targets, j);
      AddConnection(from, targets[j], weight);
    }

    /** `updateNodeConnections`: every node's lists are emptied, then each
        connection, in dictionary order, is appended to its source's outgoing
        and its target's incoming list. A connection whose endpoint is not a
        node makes the source throw, hence the precondition. */
    method UpdateNodeConnections()
      requires Valid()
      requires forall k :: k in connOrder ==> k.from in nodes && k.to in nodes
      modifies this`nodes
      ensures Valid()
      ensures nodes.Keys == old(nodes).Keys
      ensures forall n :: n in nodes ==>
                nodes[n] == old(nodes)[n].(incoming := Into(connOrder, n), outgoing := From(connOrder, n))
      ensures inputs == old(inputs) && hidden == old(hidden) && outputs == old(outputs)
    {
      var wired := Rewire(nodes, connOrder);
      WiredAt(nodes, connOrder);
      nodes := wired;
    }

    /** `setInputs(array)`: INPUT:i gets `array[i]`. An array longer than the
        input list makes the source throw. */
    method SetInputs(values: seq<real>)
      requires Valid() && |values| <= |inputs|
      modifies this`nodes
      ensures Valid()
      ensures nodes.Keys == old(nodes).Keys
      ensures forall i :: 0 <= i < |values| ==> nodes[Input(i)] == old(nodes)[Input(i)].(value := values[i])
      ensures forall n :: n in nodes && !(n.Input? && n.index < |values|) ==> nodes[n] == old(nodes)[n]
      ensures inputs == old(inputs) && hidden == old(hidden) && outputs == old(outputs)
    {
      var updated := nodes;
      for i := 0 to |values|
        invariant updated.Keys == nodes.Keys
        invariant forall k :: 0 <= k < i ==> updated[Input(k)] == nodes[Input(k)].(value := values[k])
        invariant forall n :: n in updated && !(n.Input? && n.index < i) ==> updated[n] == nodes[n]
      {
        var id := inputs[i];
        updated := updated[id := updated[id].(value := values[i])];
      }
      nodes := updated;
    }
  }

  datatype Option<T> = None | Some(value: T)

  lemma TakeSnoc<T>(s: seq<T>, i: nat)
    requires i < |s|
    ensures s[..i + 1] == s[..i] + [s[i]]
  {
  }

  lemma ConcatAssoc<T>(a: seq<T>, b: seq<T>, c: seq<T>)
    ensures a + (b + c) == (a + b) + c
  {
  }

  lemma {:induction false} AddAllSnocFrom(conns: map<ConnKey, Connection>, keys: seq<ConnKey>, k: ConnKey, randomWeights: bool, draws: seq<real>, start: nat)
    requires ValidDraws(draws)
    ensures AddAll(conns, keys + [k], randomWeights, draws, start)
            == AddAll(conns, keys, randomWeights, draws, start)[k := Connection(k.from, k.to, AllWeight(randomWeights, draws, start + |keys|))]
    decreases |keys|
  {
    if keys == [] {
      assert keys + [k] == [k];
    } else {
      assert (keys + [k])[1..] == keys[1..] + [k];
      AddAllSnocFrom(conns[keys[0] := Connection(keys[0].from, keys[0].to, AllWeight(randomWeights, draws, start))],
                     keys[1..], k, randomWeights, draws, start + 1);
    }
  }

  lemma {:induction false} AddAllAppend(conns: map<ConnKey, Connection>, a: seq<ConnKey>, b: seq<ConnKey>, randomWeights: bool, draws: seq<real>, start: nat)
    requires ValidDraws(draws)
    ensures AddAll(conns, a + b, randomWeights, draws, start)
            == AddAll(AddAll(conns, a, randomWeights, draws, start), b, randomWeights, draws, start + |a|)
    decreases |a|
  {
    if a == [] {
      assert a + b == b;
    } else {
      assert (a + b)[1..] == a[1..] + b;
      AddAllAppend(conns[a[0] := Connection(a[0].from, a[0].to, AllWeight(randomWeights, draws, start))],
                   a[1..], b, randomWeights, draws, start + 1);
    }
  }

  lemma AddAllTwice(conns: map<ConnKey, Connection>, a: seq<ConnKey>, b: seq<ConnKey>, ab: seq<ConnKey>,
                    mid: map<ConnKey, Connection>, last: map<ConnKey, Connection>, randomWeights: bool, draws: seq<real>, start: nat)
    requires ValidDraws(draws) && ab == a + b
    requires mid == AddAll(conns, a, randomWeights, draws, start)
    requires last == AddAll(mid, b, randomWeights, draws, start + |a|)
    ensures last == AddAll(conns, ab, randomWeights, draws, start)
  {
    AddAllAppend(conns, a, b, randomWeights, draws, start);
  }

  lemma AppendNewTwice(order: seq<ConnKey>, a: seq<ConnKey>, b: seq<ConnKey>, ab: seq<ConnKey>, mid: seq<ConnKey>, last: seq<ConnKey>)
    requires ab == a + b && mid == AppendNew(order, a) && last == AppendNew(mid, b)
    ensures last == AppendNew(order, ab)
  {
    AppendNewAppend(order, a, b);
  }

  lemma {:induction false} AppendNewAppend(order: seq<ConnKey>, a: seq<ConnKey>, b: seq<ConnKey>)
    ensures AppendNew(order, a + b) == AppendNew(AppendNew(order, a), b)
    decreases |a|
  {
    if a == [] {
      assert a + b == b;
    } else {
      assert (a + b)[1..] == a[1..] + b;
      AppendNewAppend(if a[0] in order then order else order + [a[0]], a[1..], b);
    }
  }

  lemma {:induction false} AppendNewSnoc(order: seq<ConnKey>, keys: seq<ConnKey>, k: ConnKey)
    ensures AppendNew(order, keys + [k]) == AppendNew(AppendNew(order, keys), [k])
    decreases |keys|
  {
    if keys == [] {
      assert keys + [k] == [k];
    } else {
      assert (keys + [k])[1..] == keys[1..] + [k];
      AppendNewSnoc(if keys[0] in order then order else order + [keys[0]], keys[1..], k);
    }
  }

  lemma {:induction false} FanOutSnoc(from: NodeId, targets: seq<NodeId>, j: nat)
    requires j < |targets|
    ensures FanOut(from, targets[..j + 1]) == FanOut(from, targets[..j]) + [ConnKey(from, targets[j])]
  {
  }

  /** The keys of the first `i + 1` sources: those of the first `i`, then the
      `i`-th source's block; they are a prefix of the keys of all sources. */
  lemma LayerKeysStep(sources: seq<NodeId>, i: nat, targets: seq<NodeId>)
    requires i < |sources|
    ensures LayerKeys(sources[..i + 1], targets)
            == LayerKeys(sources[..i], targets) + (FanOut(sources[i], targets) + [ConnKey(Bias, sources[i])])
    ensures |LayerKeys(sources[..i + 1], targets)| <= |LayerKeys(sources, targets)|
  {
    LayerKeysSnoc(sources[..i], sources[i], targets);
    TakeSnoc(sources, i);
    ConcatAssoc(LayerKeys(sources[..i], targets), FanOut(sources[i], targets), [ConnKey(Bias, sources[i])]);
    LayerKeysAppend(sources[..i + 1], sources[i + 1..], targets);
    assert sources[..i + 1] + sources[i + 1..] == sources;
  }

  lemma {:induction false} LayerKeysSnoc(sources: seq<NodeId>, x: NodeId, targets: seq<NodeId>)
    ensures LayerKeys(sources + [x], targets) == LayerKeys(sources, targets) + FanOut(x, targets) + [ConnKey(Bias, x)]
  {
    if sources != [] {
      assert (sources + [x])[1..] == sources[1..] + [x];
      LayerKeysSnoc(sources[1..], x, targets);
    }
  }

  /** Every node of `base` with its lists rebuilt from `order`. */
  function Wired(base: map<NodeId, NodeRec>, order: seq<ConnKey>): map<NodeId, NodeRec>
  {
    map n | n in base :: base[n].(incoming := Into(order, n), outgoing := From(order, n))
  }

  lemma WiredAt(base: map<NodeId, NodeRec>, order: seq<ConnKey>)
    ensures Wired(base, order).Keys == base.Keys
    ensures forall n :: n in base ==>
              Wired(base, order)[n] == base[n].(incoming := Into(order, n), outgoing := From(order, n))
  {
  }

  /** The two `forEach` loops of `updateNodeConnections`, on the node
      dictionary: clear every node's lists, then file each key of `order`. */
  method Rewire(base: map<NodeId, NodeRec>, order: seq<ConnKey>) returns (wired: map<NodeId, NodeRec>)
    requires forall k :: k in order ==> k.from in base && k.to in base
    ensures wired == Wired(base, order)
  {
    wired := Wired(base, []);
    for i := 0 to |order|
      invariant wired == Wired(base, order[..i])
    {
      var key := order[i];
      TakeSnoc(order, i);
      WiredSnoc(base, order[..i], key);
      var src := wired[key.from];
      wired := wired[key.from := src.(outgoing := src.outgoing + [key])];
      var dst := wired[key.to];
      wired := wired[key.to := dst.(incoming := dst.incoming + [key])];
    }
    assert order[..|order|] == order;
  }

  /** One step of the second `forEach` of `updateNodeConnections`: the key
      is appended to its source's outgoing and then its target's incoming list. */
  function Wire(m: map<NodeId, NodeRec>, k: ConnKey): map<NodeId, NodeRec>
    requires k.from in m && k.to in m
  {
    var m1 := m[k.from := m[k.from].(outgoing := m[k.from].outgoing + [k])];
    m1[k.to := m1[k.to].(incoming := m1[k.to].incoming + [k])]
  }

  lemma {:induction false} WiredSnocAt(base: map<NodeId, NodeRec>, order: seq<ConnKey>, k: ConnKey, n: NodeId)
    requires k.from in base && k.to in base && n in base
    ensures Wired(base, order + [k])[n] == Wire(Wired(base, order), k)[n]
  {
    FromSnoc(order, k);
    IntoSnoc(order, k);
    WiredAt(base, order);
    WiredAt(base, order + [k]);
  }

  lemma {:induction false} WiredSnoc(base: map<NodeId, NodeRec>, order: seq<ConnKey>, k: ConnKey)
    requires k.from in base && k.to in base
    ensures Wired(base, order + [k]) == Wire(Wired(base, order), k)
  {
    var lhs := Wired(base, order + [k]);
    var rhs := Wire(Wired(base, order), k);
    WiredAt(base, order);
    WiredAt(base, order + [k]);
    assert lhs.Keys == rhs.Keys;
    forall n | n in lhs
      ensures lhs[n] == rhs[n]
    {
      WiredSnocAt(base, order, k, n);
    }
  }

  lemma {:induction false} FromSnoc(order: seq<ConnKey>, k: ConnKey)
    ensures forall n :: From(order + [k], n) == From(order, n) + (if k.from == n then [k] else [])
  {
    if order != [] {
      FromSnoc(order[1..], k);
      assert (order + [k])[1..] == order[1..] + [k];
    }
  }

  lemma {:induction false} IntoSnoc(order: seq<ConnKey>, k: ConnKey)
    ensures forall n :: Into(order + [k], n) == Into(order, n) + (if k.to == n then [k] else [])
  {
    if order != [] {
      IntoSnoc(order[1..], k);
      assert (order + [k])[1..] == order[1..] + [k];
    }
  }

  /** A map whose keys are exactly the entries of a duplicate-free sequence
      has as many entries as the sequence. */
  lemma KeysCardinality(m: map<ConnKey, Connection>, s: seq<ConnKey>)
    requires Distinct(s) && forall k :: k in m <==> k in s
    ensures |m| == |s|
  {
    assert m.Keys == set k | k in s;
    DistinctCardinality(s);
  }

  lemma {:induction false} DistinctCardinality(s: seq<ConnKey>)
    requires Distinct(s)
    ensures |set k | k in s| == |s|
  {
    if s != [] {
      DistinctCardinality(s[1..]);
      assert (set k | k in s) == (set k | k in s[1..]) + {s[0]};
    }
  }

  /** After `updateNodeConnections`, each connection is listed exactly once in
      its source's outgoing list and once in its target's incoming list. */
  lemma {:induction false} WiredOnce(order: seq<ConnKey>, k: ConnKey)
    requires Distinct(order) && k in order
    ensures Count(From(order, k.from), k) == 1
    ensures Count(Into(order, k.to), k) == 1
  {
    FromDistinct(order, k.from);
    IntoDistinct(order, k.to);
    FromMembers(order, k.from, k);
    IntoMembers(order, k.to, k);
    CountInDistinct(From(order, k.from), k);
    CountInDistinct(Into(order, k.to), k);
  }
}

// Model of `Network.fromJSON` (Javascript/NeatJS/src/architecture/
// network.js): a new network of the right size, whose node and connection
// lists are then replaced by the nodes and connections the JSON describes.
// This is the function assigned after the class (line 983), which replaces
// the static method of the same name (line 556); unlike that one it also
// empties the connection list before the connection loop.
// A reference in the JSON is a position in the new `nodes` list; a position
// out of range, `undefined` or `null` reads `undefined`, and every use of
// such a node throws except a `null` gater, which means "not gated".

module NeatLoad {
  import opened NeatConnection
  import opened NeatNode
  import opened NeatMutation
  import opened NeatSerial
  import opened NeatNetwork

  /** `network.nodes[ref]`. */
  function Resolve(nodes: seq<nat>, r: Ref): (n: Option<nat>)
    ensures n.Some? <==> r.At? && 0 <= r.i < |nodes|
    ensures n.Some? ==> n.value == nodes[r.i]
  {
    if r.At? && 0 <= r.i < |nodes| then Some(nodes[r.i]) else None
  }

  /** The positions `base .. base + n - 1`. */
  function Range(base: nat, n: nat): (r: seq<nat>)
    ensures |r| == n && forall k :: 0 <= k < n ==> r[k] == base + k
  {
    if n == 0 then [] else Range(base, n - 1) + [base + n - 1]
  }

  lemma RangeAppend(ids: seq<nat>, base: nat, n: nat, id: nat)
    requires ids == Range(base, n) && id == base + n
    ensures ids + [id] == Range(base, n + 1)
  {
  }

  /** The arena after the node loop: one `Node.fromJSON` per object, each
      with its zero self-connection. The bias draw of `new Node()` is
      overwritten and fixed at 0. */
  function PushNodes(s: Store, js: seq<NodeJSON>): (t: Store)
    requires StoreOk(s)
    ensures StoreOk(t) && |t.nodes| == |s.nodes| + |js| && |t.conns| == |s.conns| + |js|
    decreases |js|
  {
    if js == [] then s
    else
      var p := PushNodes(s, js[..|js| - 1]);
      var id := |p.nodes|;
      var n := NodeFromJSON(js[|js| - 1], 0.0, |p.conns|);
      var c := NewConnection(id, id, Some(0.0), 0.0);
      AddNodeOk(p, n, c);
      Store(p.nodes + [n], p.conns + [c])
  }

  lemma PushStep(s: Store, js: seq<NodeJSON>, i: nat)
    requires StoreOk(s) && i < |js|
    ensures var p := PushNodes(s, js[..i]);
            PushNodes(s, js[..i + 1])
              == Store(p.nodes + [NodeFromJSON(js[i], 0.0, |p.conns|)],
                       p.conns + [NewConnection(|p.nodes|, |p.nodes|, Some(0.0), 0.0)])
  {
    assert js[..i + 1][..i] == js[..i];
  }

  /** The `k`-th object of `js` becomes the node after the old arena's
      last, with the `k`-th new connection as its self-connection; the old
      nodes stay as they were. */
  lemma {:induction false} Pushed(s: Store, js: seq<NodeJSON>, k: nat)
    requires StoreOk(s) && k < |js|
    ensures var t := PushNodes(s, js);
            && t.nodes[|s.nodes| + k] == NodeFromJSON(js[k], 0.0, |s.conns| + k)
            && t.nodes[..|s.nodes|] == s.nodes
  {
    if k < |js| - 1 {
      Pushed(s, js[..|js| - 1], k);
    } else if |js| > 1 {
      Pushed(s, js[..|js| - 1], 0);
    }
  }

  /** The connect half of an entry: a self-connection is switched on and
      filed under `selfconns`, any other pair gets a new connection filed
      under `connections`; either way its weight is then set. The result
      also names the connection. */
  function Attach(s: Store, f: NetworkFields, a: nat, b: nat, weight: real): (r: (Store, NetworkFields, nat))
    requires FieldsOk(s, f) && a < |s.nodes| && b < |s.nodes| && (a != b ==> !ProjectsTo(s, a, b))
    ensures FieldsOk(r.0, r.1) && |r.0.nodes| == |s.nodes| && r.2 < |r.0.conns| && r.1.gates == f.gates
    ensures r.0.conns[r.2].weight == weight
    ensures r.1 == f.(connections := r.1.connections, selfconns := r.1.selfconns)
    ensures forall n :: 0 <= n < |s.nodes| ==> NodeToJSON(r.0.nodes[n]) == NodeToJSON(s.nodes[n])
    ensures a != b ==> && r.2 == |s.conns| && r.1.connections == f.connections + [r.2] && r.1.selfconns == f.selfconns
                       && r.0.conns[r.2].from == a && r.0.conns[r.2].to == b && r.0.conns[r.2].gater.None?
    ensures a == b ==> && r.2 == s.nodes[a].self && r.1.selfconns == f.selfconns + [r.2] && r.1.connections == f.connections
                       && r.0.conns[r.2].gater == s.conns[r.2].gater
  {
    assert NodeOk(s.nodes[a], |s.conns|);
    var t := if a == b then SelfConnected(s, a, None) else Connected(s, a, b, None, 0.0);
    var c := if a == b then s.nodes[a].self else |s.conns|;
    var f1 := if a == b then f.(selfconns := f.selfconns + [c]) else f.(connections := f.connections + [c]);
    SetConnOk(t, c, t.conns[c].(weight := weight));
    var t1 := Store(t.nodes, t.conns[c := t.conns[c].(weight := weight)]);
    AppendBelow(f.connections, c, |t1.conns|);
    AppendBelow(f.selfconns, c, |t1.conns|);
    BelowGrow(f.nodes, |s.nodes|, |t1.nodes|);
    BelowGrow(f.gates, |s.conns|, |t1.conns|);
    BelowGrow(f.connections, |s.conns|, |t1.conns|);
    BelowGrow(f.selfconns, |s.conns|, |t1.conns|);
    (t1, f1, c)
  }

  /** One entry of `json.connections`: connect its ends, set its weight,
      then gate it unless its gater is `null`. An unresolved end throws, as
      does a pair of distinct nodes already connected, and an unresolved
      gater other than `null`. The weight draw of `new Connection` is
      overwritten and fixed at 0. */
  function LoadConn(s: Store, f: NetworkFields, e: ConnJSON): (r: Outcome<(Store, NetworkFields)>)
    requires FieldsOk(s, f)
    ensures r.Throws? <==>
              || Resolve(f.nodes, e.from).None? || Resolve(f.nodes, e.to).None?
              || (Resolve(f.nodes, e.from) != Resolve(f.nodes, e.to)
                  && ProjectsTo(s, Resolve(f.nodes, e.from).value, Resolve(f.nodes, e.to).value))
              || (!e.gater.Null? && Resolve(f.nodes, e.gater).None?)
    ensures r.Done? ==> FieldsOk(r.value.0, r.value.1) && |r.value.0.nodes| == |s.nodes|
    ensures r.Done? ==> r.value.1 == f.(connections := r.value.1.connections, selfconns := r.value.1.selfconns,
                                       gates := r.value.1.gates)
    ensures r.Done? ==> forall n :: 0 <= n < |s.nodes| ==> NodeToJSON(r.value.0.nodes[n]) == NodeToJSON(s.nodes[n])
    ensures r.Done? && Resolve(f.nodes, e.from) != Resolve(f.nodes, e.to) ==>
              var c := |s.conns|;
              && r.value.1.connections == f.connections + [c] && r.value.1.selfconns == f.selfconns
              && c < |r.value.0.conns|
              && r.value.0.conns[c].from == Resolve(f.nodes, e.from).value
              && r.value.0.conns[c].to == Resolve(f.nodes, e.to).value
              && r.value.0.conns[c].weight == e.weight
              && r.value.0.conns[c].gater == Resolve(f.nodes, e.gater)
  {
    var from, to := Resolve(f.nodes, e.from), Resolve(f.nodes, e.to);
    if from.None? || to.None? then Throws
    else if from.value != to.value && ProjectsTo(s, from.value, to.value) then Throws
    else
      var (t, f1, c) := Attach(s, f, from.value, to.value, e.weight);
      if e.gater.Null? then Done((t, f1))
      else
        var g := Resolve(f.nodes, e.gater);
        if g.None? then Throws
        else Gated(t, f1, g.value, c)
  }

  /** The gate half of an entry: `gate(node, connection)` for a node of the
      network, which does not throw. */
  function Gated(s: Store, f: NetworkFields, g: nat, c: nat): (r: Outcome<(Store, NetworkFields)>)
    requires FieldsOk(s, f) && g in f.nodes && c < |s.conns|
    ensures r.Done? && FieldsOk(r.value.0, r.value.1) && |r.value.0.nodes| == |s.nodes| && |r.value.0.conns| == |s.conns|
    ensures r.value.1 == f.(gates := r.value.1.gates)
    ensures forall n :: 0 <= n < |s.nodes| ==> NodeToJSON(r.value.0.nodes[n]) == NodeToJSON(s.nodes[n])
    ensures forall x :: 0 <= x < |s.conns| && x != c ==> r.value.0.conns[x] == s.conns[x]
    ensures r.value.0.conns[c] == s.conns[c].(gater := r.value.0.conns[c].gater)
    ensures s.conns[c].gater.None? ==> r.value.0.conns[c].gater == Some(g)
  {
    var gated := NetGate(s, f.nodes, f.gates, g, c);
    AppendBelow(f.gates, c, |s.conns|);
    Done((gated.value.0, f.(gates := gated.value.1)))
  }

  /** The connection loop: the entries in order, stopping at the first
      throw. */
  function LoadConns(s: Store, f: NetworkFields, es: seq<ConnJSON>): (r: Outcome<(Store, NetworkFields)>)
    requires FieldsOk(s, f)
    ensures r.Done? ==> FieldsOk(r.value.0, r.value.1) && |r.value.0.nodes| == |s.nodes|
    ensures r.Done? ==> r.value.1 == f.(connections := r.value.1.connections, selfconns := r.value.1.selfconns,
                                       gates := r.value.1.gates)
    ensures r.Done? ==> forall n :: 0 <= n < |s.nodes| ==> NodeToJSON(r.value.0.nodes[n]) == NodeToJSON(s.nodes[n])
    decreases |es|
  {
    if es == [] then Done((s, f))
    else
      var r := LoadConn(s, f, es[0]);
      if r.Throws? then Throws else LoadConns(r.value.0, r.value.1, es[1..])
  }

  /** The fields `fromJSON` starts the connection loop with: those of the
      new network `f`, with the dropout of the JSON, the pushed nodes and no
      connections. */
  function Reset(f: NetworkFields, base: nat, json: NetworkJSON): NetworkFields
  {
    f.(dropout := json.dropout, nodes := Range(base, |json.nodes|), connections := [])
  }

  /** `fromJSON(json)` after `new Network(json.input, json.output)` built
      the arena `s` and the fields `f`. */
  function LoadNet(s: Store, f: NetworkFields, json: NetworkJSON): (r: Outcome<(Store, NetworkFields)>)
    requires FieldsOk(s, f)
    ensures r.Done? ==> FieldsOk(r.value.0, r.value.1) && |r.value.0.nodes| == |s.nodes| + |json.nodes|
    ensures r.Done? ==> r.value.1.nodes == Range(|s.nodes|, |json.nodes|) && r.value.1.dropout == json.dropout
                        && r.value.1.input == f.input && r.value.1.output == f.output && r.value.1.score == f.score
  {
    var t := PushNodes(s, json.nodes);
    var base := |s.nodes|;
    assert IdsBelow(Range(base, |json.nodes|), |t.nodes|);
    assert FieldsOk(t, Reset(f, base, json)) by {
      assert IdsBelow(f.gates, |t.conns|) && IdsBelow(f.selfconns, |t.conns|);
    }
    LoadConns(t, Reset(f, base, json), json.connections)
  }

  // ---------------------------------------------------------------------
  // Properties

  /** Every squash name of the JSON names a function of the table. */
  predicate NamesKnown(json: NetworkJSON)
  {
    forall k :: 0 <= k < |json.nodes| ==> SquashByName(json.nodes[k].squash).Some?
  }

  /** The loaded network lists the new nodes in the order of the JSON, and
      each of them is written back as the object it was read from. */
  lemma LoadedNodes(s: Store, f: NetworkFields, json: NetworkJSON)
    requires FieldsOk(s, f) && NamesKnown(json) && LoadNet(s, f, json).Done?
    ensures var (t, g) := LoadNet(s, f, json).value;
            && g.nodes == Range(|s.nodes|, |json.nodes|)
            && NodesJSON(t, g.nodes, |g.nodes|) == Done(json.nodes)
  {
    var (t, g) := LoadNet(s, f, json).value;
    forall k | 0 <= k < |json.nodes|
      ensures NodeToJSON(t.nodes[g.nodes[k]]) == Done(json.nodes[k])
    {
      assert g.nodes[k] == |s.nodes| + k;
      Pushed(s, json.nodes, k);
    }
    var js := NodesJSON(t, g.nodes, |g.nodes|);
    assert js.Done? && js.value == json.nodes;
  }

  /** A connection entry whose references all resolve throws exactly when
      its two distinct ends are already connected. */
  lemma ResolvedEntry(s: Store, f: NetworkFields, e: ConnJSON)
    requires FieldsOk(s, f) && RefsIn(e, |f.nodes|)
    ensures LoadConn(s, f, e).Throws? <==>
              f.nodes[e.from.i] != f.nodes[e.to.i] && ProjectsTo(s, f.nodes[e.from.i], f.nodes[e.to.i])
  {
  }

  /** The entry `toJSON` writes for a self-connection whose gater has no
      `index` is rejected by `fromJSON`, whatever network it is loaded
      into. */
  lemma UndefinedGaterThrows(s: Store, f: NetworkFields, e: ConnJSON)
    requires FieldsOk(s, f) && e.gater.Undefined?
    ensures LoadConn(s, f, e).Throws?
  {
  }

  /** The network of two fresh nodes where node 1 gates the self-connection
      of node 0, whose weight is 0.5: what `new Node()` twice,
      `connect(n0, n0, 0.5)` and `gate(n1, n0.connections.self)` build. */
  function TwoNodes(): (s: Store)
    ensures StoreOk(s) && |s.nodes| == 2 && |s.conns| == 2
  {
    var n0 := InitialNode(None, 0.0, 0);
    var n1 := InitialNode(None, 0.0, 1).(gated := [0]);
    var c0 := NewConnection(0, 0, Some(0.5), 0.0).(gater := Some(1));
    var c1 := NewConnection(1, 1, Some(0.0), 0.0);
    var s := Store([n0, n1], [c0, c1]);
    assert NodeOk(n0, 2) && NodeOk(n1, 2) && ConnOk(c0, 2) && ConnOk(c1, 2);
    s
  }

  /** `toJSON` as written on that network: the self entry of node 0 is
      written before node 1 is numbered, so its gater is `undefined`. */
  lemma StaleGaterWritten()
    ensures var json := Serialized(TwoNodes(), [0, 1], [], 0, 0, 0.0);
            json.Done? && json.value.connections == [ConnJSON(0.5, At(0), At(0), Undefined)]
  {
    var s := TwoNodes();
    var nodes: seq<nat> := [0, 1];
    var s1 := IndexedUpTo(s, nodes, 1);
    assert s1 == SetIndex(s, 0, 0);
    var s2 := IndexedUpTo(s, nodes, 2);
    assert s2 == SetIndex(s1, 1, 1);
    assert SelfsJSON(s, nodes, 1) == SelfJSON(s1, 0, 0) == [ConnJSON(0.5, At(0), At(0), Undefined)];
    assert SelfJSON(s2, 1, 1) == [];
    assert NodesJSON(s, nodes, 2).Done?;
  }

  /** The corrected serializer writes position 1 for that gater. */
  lemma FixedGaterWritten()
    ensures var json := SerializedFixed(TwoNodes(), [0, 1], [], 0, 0, 0.0);
            json.Done? && json.value.connections == [ConnJSON(0.5, At(0), At(0), At(1))]
  {
    var s := TwoNodes();
    var nodes: seq<nat> := [0, 1];
    var s1 := IndexedUpTo(s, nodes, 1);
    assert s1 == SetIndex(s, 0, 0);
    var s2 := IndexedUpTo(s, nodes, 2);
    assert s2 == SetIndex(s1, 1, 1);
    assert SelfsFixed(s2, nodes, 1) == SelfJSON(s2, 0, 0) == [ConnJSON(0.5, At(0), At(0), At(1))];
    assert SelfJSON(s2, 1, 1) == [];
    assert NodesJSON(s, nodes, 2).Done?;
  }

  /** A JSON whose first connection entry has an `undefined` gater never
      loads. */
  lemma FirstGaterUndefined(s: Store, f: NetworkFields, json: NetworkJSON)
    requires FieldsOk(s, f) && |json.connections| > 0 && json.connections[0].gater.Undefined?
    ensures LoadNet(s, f, json).Throws?
  {
    var p := PushNodes(s, json.nodes);
    var g := Reset(f, |s.nodes|, json);
    assert FieldsOk(p, g) by {
      assert IdsBelow(f.gates, |p.conns|) && IdsBelow(f.selfconns, |p.conns|);
    }
    UndefinedGaterThrows(p, g, json.connections[0]);
  }

  /** On that network, `fromJSON(toJSON())` throws, and the corrected
      serializer's output refers to positions only. */
  lemma StaleGaterExample(s0: Store, f0: NetworkFields)
    requires FieldsOk(s0, f0)
    ensures var json := Serialized(TwoNodes(), [0, 1], [], 0, 0, 0.0);
            json.Done? && LoadNet(s0, f0, json.value).Throws?
    ensures var fixed := SerializedFixed(TwoNodes(), [0, 1], [], 0, 0, 0.0);
            fixed.Done? && AllRefsIn(fixed.value.connections, 2)
  {
    StaleGaterWritten();
    FixedGaterWritten();
    FirstGaterUndefined(s0, f0, Serialized(TwoNodes(), [0, 1], [], 0, 0, 0.0).value);
  }

  // ---------------------------------------------------------------------
  // The operation

  /** One entry of the connection loop. */
  method LoadEntry(net: Network, e: ConnJSON) returns (thrown: bool)
    requires net.Ready()
    modifies net, net.graph
    ensures thrown <==> LoadConn(old(net.graph.State()), old(net.Fields()), e).Throws?
    ensures !thrown ==> net.Ready()
                        && (net.graph.State(), net.Fields()) == LoadConn(old(net.graph.State()), old(net.Fields()), e).value
  {
    var from := Resolve(net.nodes, e.from);
    var to := Resolve(net.nodes, e.to);
    if from.None? || to.None? {
      return true;
    }
    var c;
    thrown, c := AttachEntry(net, from.value, to.value, e.weight);
    if thrown {
      return;
    }
    if e.gater.Null? {
      return false;
    }
    var g := Resolve(net.nodes, e.gater);
    if g.None? {
      return true;
    }
    thrown := net.Gate(g.value, c);
  }

  /** `connect(from, to)` for one entry, then the new connection's weight
      set; the result names the connection. */
  method AttachEntry(net: Network, from: nat, to: nat, weight: real) returns (thrown: bool, c: nat)
    requires net.Ready() && from < |net.graph.nodes| && to < |net.graph.nodes|
    modifies net, net.graph
    ensures thrown <==> from != to && ProjectsTo(old(net.graph.State()), from, to)
    ensures !thrown ==> net.Ready()
                        && (net.graph.State(), net.Fields(), c) == Attach(old(net.graph.State()), old(net.Fields()), from, to, weight)
  {
    var res := net.Connect(from, to, None, 0.0);
    if res.Throws? {
      return true, 0;
    }
    c := res.value;
    SetConnOk(net.graph.State(), c, net.graph.conns[c].(weight := weight));
    net.graph.conns := net.graph.conns[c := net.graph.conns[c].(weight := weight)];
    thrown := false;
  }

  /** The connection loop of `fromJSON`. */
  method LoadEntries(net: Network, es: seq<ConnJSON>) returns (thrown: bool)
    requires net.Ready()
    modifies net, net.graph
    ensures thrown <==> LoadConns(old(net.graph.State()), old(net.Fields()), es).Throws?
    ensures !thrown ==> net.Ready()
                        && (net.graph.State(), net.Fields()) == LoadConns(old(net.graph.State()), old(net.Fields()), es).value
  {
    var i := 0;
    while i < |es|
      invariant i <= |es| && net.Ready()
      invariant LoadConns(old(net.graph.State()), old(net.Fields()), es) == LoadConns(net.graph.State(), net.Fields(), es[i..])
    {
      assert es[i..][1..] == es[i + 1..];
      thrown := LoadEntry(net, es[i]);
      if thrown {
        return;
      }
      i := i + 1;
    }
    thrown := false;
  }

  /** The dropout and the two lists of `fromJSON`, then its node loop. */
  method PushAll(net: Network, json: NetworkJSON)
    requires net.Ready()
    modifies net, net.graph
    ensures net.Ready() && net.graph.State() == PushNodes(old(net.graph.State()), json.nodes)
    ensures net.Fields() == Reset(old(net.Fields()), old(|net.graph.nodes|), json)
  {
    var before := |net.graph.conns|;
    net.dropout := json.dropout;
    net.nodes := [];
    net.connections := [];
    var ids := PushLoop(net.graph, json.nodes);
    BelowGrow(net.gates, before, |net.graph.conns|);
    BelowGrow(net.selfconns, before, |net.graph.conns|);
    net.nodes := ids;
  }

  /** The node loop of `fromJSON`: `Node.fromJSON` for each object, in
      order; the result lists the new nodes. */
  method PushLoop(g: Graph, js: seq<NodeJSON>) returns (ids: seq<nat>)
    requires g.Valid()
    modifies g
    ensures g.Valid() && g.State() == PushNodes(old(g.State()), js)
    ensures ids == Range(old(|g.nodes|), |js|) && IdsBelow(ids, |g.nodes|)
  {
    var t;
    t, ids := PushValues(g.State(), js);
    g.nodes, g.conns := t.nodes, t.conns;
  }

  /** The node loop on the arena's value: each round appends a node and
      its self-connection, as `new Node()` does. */
  method PushValues(s: Store, js: seq<NodeJSON>) returns (t: Store, ids: seq<nat>)
    requires StoreOk(s)
    ensures t == PushNodes(s, js) && ids == Range(|s.nodes|, |js|)
  {
    t := s;
    ids := [];
    var i: nat := 0;
    while i < |js|
      invariant i <= |js| && t == PushNodes(s, js[..i])
      invariant |t.nodes| == |s.nodes| + i && ids == Range(|s.nodes|, i)
    {
      PushStep(s, js, i);
      var id: nat := |t.nodes|;
      RangeAppend(ids, |s.nodes|, i, id);
      ids := ids + [id];
      t := Store(t.nodes + [NodeFromJSON(js[i], 0.0, |t.conns|)],
                 t.conns + [NewConnection(|t.nodes|, |t.nodes|, Some(0.0), 0.0)]);
      i := i + 1;
    }
    assert js[..i] == js;
  }

  /** `Network.fromJSON(json)` on the arena `g`: `d` and `w` are the bias
      draws and weights of `new Network(json.input, json.output)`, whose
      arena and fields are `made` and `f`. */
  method FromJSON(g: Graph, json: NetworkJSON, d: nat -> real, w: nat -> real)
    returns (res: Outcome<Network>, ghost made: Store, ghost f: NetworkFields)
    requires g.Valid() && Uniform(d)
    modifies g
    ensures FieldsOk(made, f) && |made.nodes| == old(|g.nodes|) + json.input + json.output
    ensures f.input == json.input && f.output == json.output && f.gates == [] && f.selfconns == [] && f.score == None
    ensures res.Throws? <==> LoadNet(made, f, json).Throws?
    ensures res.Done? ==> fresh(res.value) && res.value.graph == g && res.value.Ready()
                          && (g.State(), res.value.Fields()) == LoadNet(made, f, json).value
  {
    var net := new Network(g, json.input, json.output, d, w);
    made, f := g.State(), net.Fields();
    PushAll(net, json);
    var thrown := LoadEntries(net, json.connections);
    if thrown {
      return Throws, made, f;
    }
    res := Done(net);
  }
}

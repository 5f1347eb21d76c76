// Model of the graph operations of Javascript/NeatJS/src/architecture/network.js:
// a `Network` is a view on the shared arena of nodes and connections (see
// NeatNode) holding node and connection indices in its lists.

module NeatNetwork {
  import opened NeatConnection
  import opened NeatNode
  import opened NeatMutation
  import opened NeatSerial

  /** The position of the first connection in `list` from `from` to `to`,
      or -1. */
  function FirstLink(s: Store, list: seq<nat>, from: nat, to: nat): (i: int)
    requires IdsBelow(list, |s.conns|)
    ensures -1 <= i < |list|
    ensures i == -1 <==> forall k :: 0 <= k < |list| ==> !(s.conns[list[k]].from == from && s.conns[list[k]].to == to)
    ensures 0 <= i ==> s.conns[list[i]].from == from && s.conns[list[i]].to == to
    ensures 0 <= i ==> forall k :: 0 <= k < i ==> !(s.conns[list[k]].from == from && s.conns[list[k]].to == to)
  {
    if list == [] then -1
    else if s.conns[list[0]].from == from && s.conns[list[0]].to == to then 0
    else
      var j := FirstLink(s, list[1..], from, to);
      if j == -1 then -1 else j + 1
  }

  lemma BelowGrow(ids: seq<nat>, k: nat, k': nat)
    requires IdsBelow(ids, k) && k <= k'
    ensures IdsBelow(ids, k')
  {
  }

  /** A connection made by `connect` keeps every projection that held. */
  lemma ConnectKeepsProjection(s: Store, from: nat, to: nat, weight: Option<real>, r: real, a: nat, b: nat)
    requires StoreOk(s) && from < |s.nodes| && to < |s.nodes| && 0.0 <= r < 1.0 && a < |s.nodes|
    requires ProjectsTo(s, a, b)
    ensures ProjectsTo(AfterConnect(s, from, to, weight, r), a, b)
  {
    var t := AfterConnect(s, from, to, weight, r);
    if a == b && s.conns[s.nodes[a].self].weight != 0.0 {
      assert t.nodes[a].self == s.nodes[a].self;
      if from == to {
        assert t.conns[t.nodes[a].self].weight != 0.0;
      } else {
        assert t.conns[t.nodes[a].self] == s.conns[s.nodes[a].self];
      }
    } else {
      var i :| 0 <= i < |s.nodes[a].outs| && s.conns[s.nodes[a].outs[i]].to == b;
      assert t.nodes[a].outs[i] == s.nodes[a].outs[i];
      assert t.conns[s.nodes[a].outs[i]].to == b;
    }
  }

  /** Gating a connection keeps every projection that held. */
  lemma GateKeepsProjection(s: Store, g: nat, c: nat, a: nat, b: nat)
    requires StoreOk(s) && g < |s.nodes| && c < |s.conns| && a < |s.nodes|
    requires ProjectsTo(s, a, b)
    ensures ProjectsTo(GateOne(s, g, c), a, b)
  {
    var t := GateOne(s, g, c);
    assert t.nodes[a].outs == s.nodes[a].outs && t.nodes[a].self == s.nodes[a].self;
    if a == b && s.conns[s.nodes[a].self].weight != 0.0 {
      assert t.conns[t.nodes[a].self].weight == s.conns[s.nodes[a].self].weight;
    } else {
      var i :| 0 <= i < |s.nodes[a].outs| && s.conns[s.nodes[a].outs[i]].to == b;
      assert t.conns[s.nodes[a].outs[i]].to == b;
    }
  }

  /** A node appended to the arena after `s` has no connection into it from
      a node of `s`. */
  lemma FreshTarget(s: Store, t: Store, a: nat)
    requires StoreOk(s) && StoreOk(t) && a < |s.nodes| < |t.nodes| && |s.conns| <= |t.conns|
    requires t.nodes[a] == s.nodes[a] && t.conns[..|s.conns|] == s.conns
    ensures !ProjectsTo(t, a, |s.nodes|)
  {
    forall i | 0 <= i < |t.nodes[a].outs|
      ensures t.conns[t.nodes[a].outs[i]].to != |s.nodes|
    {
      var x := s.nodes[a].outs[i];
      assert NodeOk(s.nodes[a], |s.conns|);
      assert ConnOk(s.conns[x], |s.nodes|);
      assert t.conns[..|s.conns|][x] == t.conns[x];
    }
  }

  // The state of the arena while the constructor runs.

  /** The nodes made by the constructor: `input` input nodes, then `output`
      output nodes, fresh from index `base` on. */
  ghost predicate FreshNodes(s: Store, nodes: seq<nat>, base: nat, input: nat, output: nat, d: nat -> real)
  {
    && |nodes| == input + output && |s.nodes| == base + input + output
    && (forall k :: 0 <= k < |nodes| ==> nodes[k] == base + k)
    && (forall k :: 0 <= k < |nodes| ==>
          s.nodes[nodes[k]].nodeType == (if k < input then "input" else "output")
          && s.nodes[nodes[k]].bias == (if k < input then 0.0 else d(k) * 0.2 - 0.1))
  }

  /** The connections while the constructor wires input `i` to its outputs:
      inputs before `i` reach every output, input `i` the outputs before
      `input + j`. */
  ghost predicate Wired(s: Store, nodes: seq<nat>, connections: seq<nat>, base: nat, input: nat, output: nat,
                        i: nat, j: nat, w: nat -> real)
    requires StoreOk(s) && |nodes| == input + output && IdsBelow(nodes, |s.nodes|) && IdsBelow(connections, |s.conns|)
  {
    && (forall k :: i < k < input ==> s.nodes[nodes[k]].outs == [])
    && (i < input ==> forall t :: 0 <= t < |s.nodes[nodes[i]].outs| ==>
          s.conns[s.nodes[nodes[i]].outs[t]].to < base + input + j)
    && |connections| == i * output + j
    && (forall q :: 0 <= q < |connections| ==>
          base <= s.conns[connections[q]].from < base + input <= s.conns[connections[q]].to < base + input + output
          && s.conns[connections[q]].weight == w(q))
    && (forall a, b :: 0 <= a < input <= b < input + output && (a < i || (a == i && b < input + j)) ==>
          ProjectsTo(s, nodes[a], nodes[b]))
  }

  lemma FreshStep(s: Store, nodes: seq<nat>, base: nat, input: nat, output: nat, d: nat -> real,
                  from: nat, to: nat, weight: Option<real>)
    requires StoreOk(s) && FreshNodes(s, nodes, base, input, output, d)
    requires from < |s.nodes| && to < |s.nodes| && from != to
    ensures FreshNodes(Connected(s, from, to, weight, 0.0), nodes, base, input, output, d)
  {
    var t := Connected(s, from, to, weight, 0.0);
    forall k | 0 <= k < |nodes|
      ensures t.nodes[nodes[k]].nodeType == s.nodes[nodes[k]].nodeType
      ensures t.nodes[nodes[k]].bias == s.nodes[nodes[k]].bias
    {
      assert t.nodes[nodes[k]] == s.nodes[nodes[k]].(ins := t.nodes[nodes[k]].ins, outs := t.nodes[nodes[k]].outs);
    }
  }

  lemma WiredStep(s: Store, nodes: seq<nat>, connections: seq<nat>, base: nat, input: nat, output: nat,
                  i: nat, j: nat, w: nat -> real, d: nat -> real)
    requires StoreOk(s) && FreshNodes(s, nodes, base, input, output, d) && IdsBelow(connections, |s.conns|)
    requires i < input && j < output && Wired(s, nodes, connections, base, input, output, i, j, w)
    ensures !ProjectsTo(s, nodes[i], nodes[input + j]) && nodes[i] != nodes[input + j]
    ensures var t := Connected(s, nodes[i], nodes[input + j], Some(w(|connections|)), 0.0);
            IdsBelow(connections + [|s.conns|], |t.conns|)
            && Wired(t, nodes, connections + [|s.conns|], base, input, output, i, j + 1, w)
  {
    var from, to := nodes[i], nodes[input + j];
    var weight := Some(w(|connections|));
    assert from == base + i && to == base + input + j;
    assert !ProjectsTo(s, from, to);
    var t := Connected(s, from, to, weight, 0.0);
    AppendBelow(connections, |s.conns|, |t.conns|);
    WiredConnsStep(s, nodes, connections, base, input, output, i, j, w);
    WiredLinksStep(s, nodes, connections, base, input, output, i, j, w);
    WiredRowsStep(s, nodes, base, input, output, i, j, weight);
  }

  /** Connecting input `i` to output `j` leaves the later inputs without
      connections, and input `i`'s connections reach the outputs up to `j`. */
  lemma WiredRowsStep(s: Store, nodes: seq<nat>, base: nat, input: nat, output: nat, i: nat, j: nat, weight: Option<real>)
    requires StoreOk(s) && |nodes| == input + output && IdsBelow(nodes, |s.nodes|)
    requires i < input && j < output && forall k :: 0 <= k < |nodes| ==> nodes[k] == base + k
    requires forall k :: i < k < input ==> s.nodes[nodes[k]].outs == []
    requires forall t :: 0 <= t < |s.nodes[nodes[i]].outs| ==> s.conns[s.nodes[nodes[i]].outs[t]].to < base + input + j
    ensures var t := Connected(s, nodes[i], nodes[input + j], weight, 0.0);
            && (forall k :: i < k < input ==> t.nodes[nodes[k]].outs == [])
            && forall x :: 0 <= x < |t.nodes[nodes[i]].outs| ==> t.conns[t.nodes[nodes[i]].outs[x]].to < base + input + j + 1
  {
    var t := Connected(s, nodes[i], nodes[input + j], weight, 0.0);
    var outs := s.nodes[nodes[i]].outs;
    assert t.nodes[nodes[i]].outs == outs + [|s.conns|];
    forall x | 0 <= x < |outs|
      ensures t.conns[outs[x]] == s.conns[outs[x]]
    {
      assert NodeOk(s.nodes[nodes[i]], |s.conns|);
    }
  }

  /** The connection the constructor adds for input `i` and output `j`
      joins the wired list with the weight of its position. */
  lemma WiredConnsStep(s: Store, nodes: seq<nat>, connections: seq<nat>, base: nat, input: nat, output: nat,
                       i: nat, j: nat, w: nat -> real)
    requires StoreOk(s) && |nodes| == input + output && IdsBelow(nodes, |s.nodes|) && IdsBelow(connections, |s.conns|)
    requires i < input && j < output && nodes[i] == base + i && nodes[input + j] == base + input + j
    requires forall q :: 0 <= q < |connections| ==>
               base <= s.conns[connections[q]].from < base + input <= s.conns[connections[q]].to < base + input + output
               && s.conns[connections[q]].weight == w(q)
    ensures var t := Connected(s, nodes[i], nodes[input + j], Some(w(|connections|)), 0.0);
            var cs := connections + [|s.conns|];
            forall q :: 0 <= q < |cs| ==>
              base <= t.conns[cs[q]].from < base + input <= t.conns[cs[q]].to < base + input + output
              && t.conns[cs[q]].weight == w(q)
  {
    var t := Connected(s, nodes[i], nodes[input + j], Some(w(|connections|)), 0.0);
    var cs := connections + [|s.conns|];
    forall q | 0 <= q < |cs|
      ensures base <= t.conns[cs[q]].from < base + input <= t.conns[cs[q]].to < base + input + output
      ensures t.conns[cs[q]].weight == w(q)
    {
      if q < |connections| {
        assert cs[q] == connections[q];
        assert t.conns[cs[q]] == s.conns[cs[q]];
      }
    }
  }

  /** After the constructor connects input `i` to output `j`, the inputs
      before `i` still reach every output and input `i` reaches the outputs
      up to `j`. */
  lemma WiredLinksStep(s: Store, nodes: seq<nat>, connections: seq<nat>, base: nat, input: nat, output: nat,
                       i: nat, j: nat, w: nat -> real)
    requires StoreOk(s) && |nodes| == input + output && IdsBelow(nodes, |s.nodes|)
    requires i < input && j < output && nodes[i] != nodes[input + j] && !ProjectsTo(s, nodes[i], nodes[input + j])
    requires forall a, b :: 0 <= a < input <= b < input + output && (a < i || (a == i && b < input + j)) ==>
               ProjectsTo(s, nodes[a], nodes[b])
    ensures var t := Connected(s, nodes[i], nodes[input + j], Some(w(|connections|)), 0.0);
            forall a, b :: 0 <= a < input <= b < input + output && (a < i || (a == i && b < input + j + 1)) ==>
              ProjectsTo(t, nodes[a], nodes[b])
  {
    var from, to := nodes[i], nodes[input + j];
    var weight := Some(w(|connections|));
    var t := Connected(s, from, to, weight, 0.0);
    forall a, b | 0 <= a < input <= b < input + output && (a < i || (a == i && b < input + j + 1))
      ensures ProjectsTo(t, nodes[a], nodes[b])
    {
      if a == i && b == input + j {
        assert t.nodes[from].outs[|t.nodes[from].outs| - 1] == |s.conns|;
      } else {
        assert t == AfterConnect(s, from, to, weight, 0.0);
        ConnectKeepsProjection(s, from, to, weight, 0.0, nodes[a], nodes[b]);
      }
    }
  }

  lemma WiredNextRow(s: Store, nodes: seq<nat>, connections: seq<nat>, base: nat, input: nat, output: nat,
                     i: nat, w: nat -> real)
    requires StoreOk(s) && |nodes| == input + output && IdsBelow(nodes, |s.nodes|) && IdsBelow(connections, |s.conns|)
    requires i < input && Wired(s, nodes, connections, base, input, output, i, output, w)
    ensures Wired(s, nodes, connections, base, input, output, i + 1, 0, w)
  {
    assert (i + 1) * output == i * output + output;
  }

  /** The first `i` nodes of the constructor exist, fresh from `base` on,
      with no out-connections yet. */
  ghost predicate Made(s: Store, nodes: seq<nat>, base: nat, i: nat, input: nat, d: nat -> real)
  {
    && |s.nodes| == base + i && |nodes| == i
    && (forall k :: 0 <= k < i ==> nodes[k] == base + k)
    && (forall k :: 0 <= k < i ==>
          s.nodes[nodes[k]].nodeType == (if k < input then "input" else "output")
          && s.nodes[nodes[k]].bias == (if k < input then 0.0 else d(k) * 0.2 - 0.1)
          && s.nodes[nodes[k]].outs == [])
  }

  lemma MadeStep(s: Store, t: Store, nodes: seq<nat>, base: nat, i: nat, input: nat, d: nat -> real)
    requires Made(s, nodes, base, i, input, d) && 0.0 <= d(i) < 1.0
    requires t.nodes == s.nodes + [InitialNode(Some(if i < input then "input" else "output"), d(i), |s.conns|)]
    ensures Made(t, nodes + [|s.nodes|], base, i + 1, input, d)
  {
    var ns := nodes + [|s.nodes|];
    forall k | 0 <= k < i + 1
      ensures ns[k] == base + k
      ensures t.nodes[ns[k]].nodeType == (if k < input then "input" else "output")
      ensures t.nodes[ns[k]].bias == (if k < input then 0.0 else d(k) * 0.2 - 0.1)
      ensures t.nodes[ns[k]].outs == []
    {
      if k < i {
        assert ns[k] == nodes[k];
        assert t.nodes[ns[k]] == s.nodes[nodes[k]];
      }
    }
  }

  lemma MadeAll(s: Store, nodes: seq<nat>, base: nat, input: nat, output: nat, d: nat -> real, w: nat -> real)
    requires StoreOk(s) && Made(s, nodes, base, input + output, input, d)
    ensures IdsBelow(nodes, |s.nodes|)
    ensures FreshNodes(s, nodes, base, input, output, d)
    ensures Wired(s, nodes, [], base, input, output, 0, 0, w)
  {
  }

  /** Once every input is wired, each connection runs from an input node to
      an output node and every input projects to every output. */
  lemma WiredAll(s: Store, nodes: seq<nat>, connections: seq<nat>, base: nat, input: nat, output: nat,
                 d: nat -> real, w: nat -> real)
    requires StoreOk(s) && FreshNodes(s, nodes, base, input, output, d)
    requires IdsBelow(nodes, |s.nodes|) && IdsBelow(connections, |s.conns|)
    requires Wired(s, nodes, connections, base, input, output, input, 0, w)
    ensures |connections| == input * output
    ensures forall q :: 0 <= q < |connections| ==>
              s.conns[connections[q]].from in nodes[..input] && s.conns[connections[q]].to in nodes[input..]
              && s.conns[connections[q]].weight == w(q)
    ensures forall a, b :: 0 <= a < input <= b < input + output ==> ProjectsTo(s, nodes[a], nodes[b])
  {
    forall q | 0 <= q < |connections|
      ensures s.conns[connections[q]].from in nodes[..input] && s.conns[connections[q]].to in nodes[input..]
    {
      var c := s.conns[connections[q]];
      assert nodes[..input][c.from - base] == c.from;
      assert nodes[input..][c.to - base - input] == c.to;
    }
  }

  /** The fields of a network, for stating what an operation leaves alone. */
  datatype NetworkFields = NetworkFields(
    input: nat, output: nat, nodes: seq<nat>, connections: seq<nat>, gates: seq<nat>,
    selfconns: seq<nat>, dropout: real, score: Option<real>)

  /** Every index the fields hold points into the arena. */
  predicate FieldsOk(s: Store, f: NetworkFields)
  {
    && StoreOk(s) && IdsBelow(f.nodes, |s.nodes|) && IdsBelow(f.connections, |s.conns|)
    && IdsBelow(f.gates, |s.conns|) && IdsBelow(f.selfconns, |s.conns|)
  }

  /** The list `disconnect` searches: `selfconns` for a self-connection. */
  function Listed(f: NetworkFields, self: bool): seq<nat>
  {
    if self then f.selfconns else f.connections
  }

  function WithList(f: NetworkFields, self: bool, list: seq<nat>): (g: NetworkFields)
    ensures Listed(g, self) == list && Listed(g, !self) == Listed(f, !self)
    ensures g.(connections := f.connections, selfconns := f.selfconns) == f
  {
    if self then f.(selfconns := list) else f.(connections := list)
  }

  /** `ungate(c)` on the arena `s` and the `gates` list: a connection missing
      from `gates` throws; otherwise it leaves `gates`, and its gater ungates
      it (an ungated one throws, since its gater is `null`). */
  function NetUngate(s: Store, gates: seq<nat>, c: nat): (r: Outcome<(Store, seq<nat>)>)
    requires StoreOk(s) && c < |s.conns|
    ensures r.Throws? <==> c !in gates || s.conns[c].gater.None?
    ensures r.Done? ==> r.value.0 == UngateOne(s, s.conns[c].gater.value, c)
    ensures r.Done? ==> r.value.1 == SpliceAt(gates, IndexOf(gates, c))
                        && multiset(r.value.1) == multiset(gates) - multiset{c}
  {
    var i := IndexOf(gates, c);
    if i == -1 || s.conns[c].gater.None? then Throws
    else
      RemoveFirst(gates, c);
      Done((UngateOne(s, s.conns[c].gater.value, c), SpliceAt(gates, i)))
  }

  /** What an ungate leaves alone: the node lists other than `gated`, which
      only shrink, and every connection but `c`, which is left ungated. */
  lemma UngateOneFrame(s: Store, g: nat, c: nat)
    requires StoreOk(s) && g < |s.nodes| && c < |s.conns|
    ensures var t := UngateOne(s, g, c);
            && (forall k :: 0 <= k < |s.nodes| ==>
                  t.nodes[k].ins == s.nodes[k].ins && t.nodes[k].outs == s.nodes[k].outs
                  && t.nodes[k].self == s.nodes[k].self && |t.nodes[k].gated| <= |s.nodes[k].gated|)
            && (forall x :: 0 <= x < |s.conns| && x != c ==> t.conns[x] == s.conns[x])
            && t.conns[c].gater == None && t.conns[c].gain == 1.0
            && t.conns[c].from == s.conns[c].from && t.conns[c].to == s.conns[c].to
            && t.conns[c].weight == s.conns[c].weight
  {
    var gated := s.nodes[g].gated;
    var kept := SpliceAt(gated, IndexOf(gated, c));
    assert |kept| <= |gated|;
    var t := UngateOne(s, g, c);
    assert t.nodes == s.nodes[g := s.nodes[g].(gated := kept)];
    assert t.conns == s.conns[c := s.conns[c].(gater := None, gain := 1.0)];
  }

  /** `gate(node, c)` on the arena `s` and the `gates` list: a node outside
      the network throws; an already gated connection is left as it is. */
  function NetGate(s: Store, nodes: seq<nat>, gates: seq<nat>, node: nat, c: nat): (r: Outcome<(Store, seq<nat>)>)
    requires StoreOk(s) && node < |s.nodes| && c < |s.conns|
    ensures r.Throws? <==> node !in nodes
    ensures r.Done? && s.conns[c].gater.Some? ==> r.value == (s, gates)
    ensures r.Done? && s.conns[c].gater.None? ==>
              r.value == (GateOne(s, node, c), gates + [c]) && r.value.0.conns[c].gater == Some(node)
              && r.value.0.nodes[node].gated == s.nodes[node].gated + [c]
  {
    if node !in nodes then Throws
    else if s.conns[c].gater.Some? then Done((s, gates))
    else Done((GateOne(s, node, c), gates + [c]))
  }

  /** Gating a connection, then ungating it, gives the `gates` list and every
      node's lists back. */
  lemma NetGateThenUngate(s: Store, nodes: seq<nat>, gates: seq<nat>, node: nat, c: nat)
    requires StoreOk(s) && node < |s.nodes| && c < |s.conns| && node in nodes
    requires s.conns[c].gater.None? && c !in gates && c !in s.nodes[node].gated
    ensures NetGate(s, nodes, gates, node, c).Done?
    ensures var t := NetGate(s, nodes, gates, node, c).value;
            && NetUngate(t.0, t.1, c).Done?
            && NetUngate(t.0, t.1, c).value.1 == gates
            && NetUngate(t.0, t.1, c).value.0.nodes == s.nodes
            && NetUngate(t.0, t.1, c).value.0.conns[c].gater == None
  {
    var t := NetGate(s, nodes, gates, node, c).value;
    assert t == (GateOne(s, node, c), gates + [c]);
    IndexOfAppended(gates, c);
    assert SpliceAt(gates + [c], |gates|) == gates;
    GateThenUngate(s, node, c);
  }

  /** The list half of `disconnect(from, to)` on the arena `s` and the
      fields `f`: the first matching entry of the list is ungated, if gated,
      and dropped from the list; a gated entry missing from `gates` throws. */
  function NetUnlist(s: Store, f: NetworkFields, from: nat, to: nat): (r: Outcome<(Store, NetworkFields)>)
    requires FieldsOk(s, f)
    ensures r.Done? ==> FieldsOk(r.value.0, r.value.1) && |r.value.0.nodes| == |s.nodes| && |r.value.0.conns| == |s.conns|
    ensures r.Done? ==> r.value.1.(connections := f.connections, gates := f.gates, selfconns := f.selfconns) == f
    ensures FirstLink(s, Listed(f, from == to), from, to) == -1 ==> r == Done((s, f))
  {
    var list := Listed(f, from == to);
    var i := FirstLink(s, list, from, to);
    if i == -1 then Done((s, f))
    else
      var c := list[i];
      SpliceBelow(list, i, |s.conns|);
      if s.conns[c].gater.None? then Done((s, WithList(f, from == to, SpliceAt(list, i))))
      else
        match NetUngate(s, f.gates, c)
        case Throws => Throws
        case Done(u) =>
          SpliceBelow(f.gates, IndexOf(f.gates, c), |s.conns|);
          Done((u.0, WithList(f.(gates := u.1), from == to, SpliceAt(list, i))))
  }

  /** `disconnect(from, to)` on the arena `s` and the fields `f`: the list
      half, then the nodes disconnect. */
  function NetDisconnect(s: Store, f: NetworkFields, from: nat, to: nat): (r: Outcome<(Store, NetworkFields)>)
    requires FieldsOk(s, f) && from < |s.nodes| && to < |s.nodes|
    ensures r.Done? ==> FieldsOk(r.value.0, r.value.1) && |r.value.0.nodes| == |s.nodes| && |r.value.0.conns| == |s.conns|
    ensures r.Done? ==> r.value.1.(connections := f.connections, gates := f.gates, selfconns := f.selfconns) == f
    ensures r.Throws? <==> NetUnlist(s, f, from, to).Throws?
  {
    match NetUnlist(s, f, from, to)
    case Throws => Throws
    case Done(u) => Done((Disconnected(u.0, from, to, false), u.1))
  }

  /** A list with no `from`-`to` entry, extended by one, finds the new entry. */
  lemma {:induction false} FirstLinkAppended(s: Store, t: Store, list: seq<nat>, from: nat, to: nat, id: nat)
    requires |s.conns| <= |t.conns| && IdsBelow(list, |s.conns|) && id < |t.conns|
    requires forall x :: 0 <= x < |s.conns| ==> t.conns[x] == s.conns[x]
    requires FirstLink(s, list, from, to) == -1
    requires t.conns[id].from == from && t.conns[id].to == to
    ensures FirstLink(t, list + [id], from, to) == |list|
  {
    if list != [] {
      assert (list + [id])[1..] == list[1..] + [id];
      FirstLinkAppended(s, t, list[1..], from, to, id);
    }
  }

  /** A connection made between two nodes that were not connected, then
      disconnected, gives the network's lists and the nodes' lists back. */
  lemma NetConnectThenDisconnect(s: Store, f: NetworkFields, from: nat, to: nat, weight: Option<real>, r: real)
    requires FieldsOk(s, f) && from < |s.nodes| && to < |s.nodes| && from != to && 0.0 <= r < 1.0
    requires !ProjectsTo(s, from, to) && FirstLink(s, f.connections, from, to) == -1
    ensures var t := Connected(s, from, to, weight, r);
            var g := f.(connections := f.connections + [|s.conns|]);
            && FieldsOk(t, g)
            && NetDisconnect(t, g, from, to).Done?
            && NetDisconnect(t, g, from, to).value.1 == f
            && NetDisconnect(t, g, from, to).value.0.nodes == s.nodes
  {
    var t := Connected(s, from, to, weight, r);
    var id := |s.conns|;
    var g := f.(connections := f.connections + [id]);
    AppendBelow(f.connections, id, |t.conns|);
    BelowGrow(f.nodes, |s.nodes|, |t.nodes|);
    BelowGrow(f.connections, |s.conns|, |t.conns|);
    BelowGrow(f.gates, |s.conns|, |t.conns|);
    BelowGrow(f.selfconns, |s.conns|, |t.conns|);
    FirstLinkAppended(s, t, f.connections, from, to, id);
    assert t.conns[id].gater.None?;
    assert SpliceAt(f.connections + [id], |f.connections|) == f.connections;
    ConnectThenDisconnect(s, from, to, weight, r);
  }

  // The loops of `remove`.

  /** The loop `for (conn of node.connections.gated) ungate(conn)` as it is
      written: it walks the live `gated` list by position while each ungate
      removes the visited entry from it. */
  function UngateLive(s: Store, gates: seq<nat>, node: nat, i: nat): (r: Outcome<(Store, seq<nat>)>)
    requires StoreOk(s) && node < |s.nodes|
    ensures r.Done? ==> StoreOk(r.value.0) && |r.value.0.nodes| == |s.nodes| && |r.value.0.conns| == |s.conns|
    decreases |s.nodes[node].gated| - i
  {
    if |s.nodes[node].gated| <= i then Done((s, gates))
    else
      var c := s.nodes[node].gated[i];
      match NetUngate(s, gates, c)
      case Throws => Throws
      case Done(u) =>
        UngateOneFrame(s, s.conns[c].gater.value, c);
        UngateLive(u.0, u.1, node, i + 1)
  }

  /** The same loop over a copy of the list: every connection of `cs` is
      ungated in turn. */
  function UngateCopy(s: Store, gates: seq<nat>, cs: seq<nat>): (r: Outcome<(Store, seq<nat>)>)
    requires StoreOk(s) && IdsBelow(cs, |s.conns|)
    ensures r.Done? ==> StoreOk(r.value.0) && |r.value.0.nodes| == |s.nodes| && |r.value.0.conns| == |s.conns|
    decreases |cs|
  {
    if cs == [] then Done((s, gates))
    else
      match NetUngate(s, gates, cs[0])
      case Throws => Throws
      case Done(u) => UngateCopy(u.0, u.1, cs[1..])
  }

  /** When the copy loop completes, every connection it visited is ungated,
      and so is every connection that was ungated before. */
  lemma {:induction false} UngateCopyUngates(s: Store, gates: seq<nat>, cs: seq<nat>)
    requires StoreOk(s) && IdsBelow(cs, |s.conns|)
    ensures var r := UngateCopy(s, gates, cs);
            r.Done? ==> && (forall x :: 0 <= x < |s.conns| && s.conns[x].gater.None? ==> r.value.0.conns[x].gater.None?)
                        && (forall k :: 0 <= k < |cs| ==> r.value.0.conns[cs[k]].gater.None?)
  {
    forall x | 0 <= x < |s.conns| && s.conns[x].gater.None?
      ensures UngateCopy(s, gates, cs).Done? ==> UngateCopy(s, gates, cs).value.0.conns[x].gater.None?
    {
      UngateCopyKeeps(s, gates, cs, x);
    }
    forall k | 0 <= k < |cs|
      ensures UngateCopy(s, gates, cs).Done? ==> UngateCopy(s, gates, cs).value.0.conns[cs[k]].gater.None?
    {
      UngateCopyVisits(s, gates, cs, k);
    }
  }

  /** The copy loop never gates a connection. */
  lemma {:induction false} UngateCopyKeeps(s: Store, gates: seq<nat>, cs: seq<nat>, x: nat)
    requires StoreOk(s) && IdsBelow(cs, |s.conns|) && x < |s.conns| && s.conns[x].gater.None?
    ensures UngateCopy(s, gates, cs).Done? ==> UngateCopy(s, gates, cs).value.0.conns[x].gater.None?
    decreases |cs|
  {
    if cs != [] && NetUngate(s, gates, cs[0]).Done? {
      var u := NetUngate(s, gates, cs[0]).value;
      UngateOneFrame(s, s.conns[cs[0]].gater.value, cs[0]);
      assert u.0.conns[x].gater.None?;
      UngateCopyKeeps(u.0, u.1, cs[1..], x);
    }
  }

  /** The copy loop, when it completes, leaves its `k`-th entry ungated. */
  lemma {:induction false} UngateCopyVisits(s: Store, gates: seq<nat>, cs: seq<nat>, k: nat)
    requires StoreOk(s) && IdsBelow(cs, |s.conns|) && k < |cs|
    ensures UngateCopy(s, gates, cs).Done? ==> UngateCopy(s, gates, cs).value.0.conns[cs[k]].gater.None?
    decreases |cs|
  {
    if NetUngate(s, gates, cs[0]).Done? {
      var u := NetUngate(s, gates, cs[0]).value;
      UngateOneFrame(s, s.conns[cs[0]].gater.value, cs[0]);
      if k == 0 {
        UngateCopyKeeps(u.0, u.1, cs[1..], cs[0]);
      } else {
        assert cs[k] == cs[1..][k - 1];
        UngateCopyVisits(u.0, u.1, cs[1..], k - 1);
      }
    }
  }

  /** Ungating the first entry of a node's gated list, gated by that node
      and filed in `gates`, leaves the rest of the list and every other
      connection as they were. */
  lemma UngateHead(s: Store, gates: seq<nat>, node: nat, c: nat, rest: seq<nat>)
    requires StoreOk(s) && node < |s.nodes| && c < |s.conns|
    requires s.nodes[node].gated == [c] + rest && s.conns[c].gater == Some(node) && c in gates
    ensures NetUngate(s, gates, c).Done?
    ensures var u := NetUngate(s, gates, c).value;
            && u.0.nodes[node].gated == rest
            && (forall x :: 0 <= x < |s.conns| && x != c ==> u.0.conns[x] == s.conns[x])
            && (forall x :: x in gates && x != c ==> x in u.1)
  {
    var u := NetUngate(s, gates, c).value;
    assert SpliceAt([c] + rest, 0) == rest;
    UngateOneFrame(s, node, c);
    forall x | x in gates && x != c
      ensures x in u.1
    {
      assert multiset(u.1)[x] == multiset(gates)[x];
    }
  }

  /** A node gating two connections, both filed in `gates`: the loop as
      written ungates the first and skips the second, which stays gated by
      the node. */
  lemma UngateLiveSkips(s: Store, gates: seq<nat>, node: nat, c1: nat, c2: nat)
    requires StoreOk(s) && node < |s.nodes| && c1 < |s.conns| && c2 < |s.conns| && c1 != c2
    requires s.nodes[node].gated == [c1, c2]
    requires s.conns[c1].gater == Some(node) && s.conns[c2].gater == Some(node)
    requires c1 in gates && c2 in gates
    ensures UngateLive(s, gates, node, 0).Done?
    ensures UngateLive(s, gates, node, 0).value.0.nodes[node].gated == [c2]
    ensures UngateLive(s, gates, node, 0).value.0.conns[c2].gater == Some(node)
  {
    assert [c1, c2] == [c1] + [c2];
    UngateHead(s, gates, node, c1, [c2]);
    var u := NetUngate(s, gates, c1).value;
    assert UngateLive(s, gates, node, 0) == UngateLive(u.0, u.1, node, 1);
  }

  /** On the same input the loop over a copy ungates both connections and
      empties the node's list. */
  lemma UngateCopyClears(s: Store, gates: seq<nat>, node: nat, c1: nat, c2: nat)
    requires StoreOk(s) && node < |s.nodes| && c1 < |s.conns| && c2 < |s.conns| && c1 != c2
    requires s.nodes[node].gated == [c1, c2]
    requires s.conns[c1].gater == Some(node) && s.conns[c2].gater == Some(node)
    requires c1 in gates && c2 in gates
    ensures UngateCopy(s, gates, [c1, c2]).Done?
    ensures UngateCopy(s, gates, [c1, c2]).value.0.nodes[node].gated == []
    ensures UngateCopy(s, gates, [c1, c2]).value.0.conns[c2].gater == None
  {
    assert [c1, c2] == [c1] + [c2];
    UngateHead(s, gates, node, c1, [c2]);
    var u := NetUngate(s, gates, c1).value;
    assert [c2] == [c2] + [];
    UngateHead(u.0, u.1, node, c2, []);
    var v := NetUngate(u.0, u.1, c2).value;
    assert [c1, c2][1..] == [c2];
    assert UngateCopy(s, gates, [c1, c2]) == UngateCopy(u.0, u.1, [c2]);
    assert UngateCopy(u.0, u.1, [c2]) == UngateCopy(v.0, v.1, []);
  }

  /** The pairs `remove` has bridged so far: every input before `i`, and
      input `i`, project to every output (before `j` for input `i`). */
  ghost predicate Bridged(s: Store, inputs: seq<nat>, outputs: seq<nat>, i: nat, j: nat)
    requires StoreOk(s) && IdsBelow(inputs, |s.nodes|)
  {
    forall p, q :: 0 <= p < |inputs| && 0 <= q < |outputs| && (p < i || (p == i && q < j)) ==>
      ProjectsTo(s, inputs[p], outputs[q])
  }

  lemma BridgedKept(s: Store, inputs: seq<nat>, outputs: seq<nat>, i: nat, j: nat,
                    from: nat, to: nat, weight: Option<real>, r: real)
    requires StoreOk(s) && IdsBelow(inputs, |s.nodes|) && Bridged(s, inputs, outputs, i, j)
    requires from < |s.nodes| && to < |s.nodes| && 0.0 <= r < 1.0
    ensures Bridged(AfterConnect(s, from, to, weight, r), inputs, outputs, i, j)
  {
    forall p, q | 0 <= p < |inputs| && 0 <= q < |outputs| && (p < i || (p == i && q < j))
      ensures ProjectsTo(AfterConnect(s, from, to, weight, r), inputs[p], outputs[q])
    {
      ConnectKeepsProjection(s, from, to, weight, r, inputs[p], outputs[q]);
    }
  }

  lemma BridgedNext(s: Store, inputs: seq<nat>, outputs: seq<nat>, i: nat, j: nat)
    requires StoreOk(s) && IdsBelow(inputs, |s.nodes|) && Bridged(s, inputs, outputs, i, j)
    requires i < |inputs| && j < |outputs| && ProjectsTo(s, inputs[i], outputs[j])
    ensures Bridged(s, inputs, outputs, i, j + 1)
  {
  }

  lemma BridgedRow(s: Store, inputs: seq<nat>, outputs: seq<nat>, i: nat)
    requires StoreOk(s) && IdsBelow(inputs, |s.nodes|) && Bridged(s, inputs, outputs, i, |outputs|)
    ensures Bridged(s, inputs, outputs, i + 1, 0)
  {
  }

  // The wiring `remove` relies on, and what it keeps.

  /** Every node keeps its self-connection and every connection its ends. */
  predicate SameEnds(s: Store, t: Store)
  {
    && |t.nodes| == |s.nodes| && |t.conns| == |s.conns|
    && (forall n :: 0 <= n < |s.nodes| ==> t.nodes[n].self == s.nodes[n].self)
    && (forall x :: 0 <= x < |s.conns| ==> t.conns[x].from == s.conns[x].from && t.conns[x].to == s.conns[x].to)
  }

  /** The ends and every node's in- and out-lists are as they were. */
  predicate SameLinks(s: Store, t: Store)
  {
    && SameEnds(s, t)
    && (forall n :: 0 <= n < |s.nodes| ==> t.nodes[n].ins == s.nodes[n].ins && t.nodes[n].outs == s.nodes[n].outs)
  }

  /** Only gating changed: the links and every weight are as they were. */
  predicate SameWiring(s: Store, t: Store)
  {
    && SameLinks(s, t)
    && (forall x :: 0 <= x < |s.conns| ==> t.conns[x].weight == s.conns[x].weight)
  }

  lemma SameWiringTrans(s: Store, t: Store, u: Store)
    requires SameWiring(s, t) && SameWiring(t, u)
    ensures SameWiring(s, u)
  {
  }

  /** Connection `c` into `node` as `connect` files it: it starts at another
      node with a self-connection of its own, and it is the first
      connection to `node` in its source's out-list. */
  ghost predicate InLinked(s: Store, node: nat, c: nat)
    requires StoreOk(s) && node < |s.nodes| && c < |s.conns|
  {
    var a := s.conns[c].from;
    && s.conns[c].to == node && a != node && s.nodes[a].self != s.nodes[node].self
    && FirstOutTo(s, a, node, 0) != -1 && s.nodes[a].outs[FirstOutTo(s, a, node, 0)] == c
  }

  /** `node`'s in-list as `connect` builds it: every entry is filed as
      above and no two entries share a source. */
  ghost predicate InsLinked(s: Store, node: nat)
    requires StoreOk(s) && node < |s.nodes|
  {
    var ins := s.nodes[node].ins;
    && (forall k :: 0 <= k < |ins| ==> InLinked(s, node, ins[k]))
    && (forall k, l :: 0 <= k < l < |ins| ==> s.conns[ins[k]].from != s.conns[ins[l]].from)
  }

  /** `node`'s out-list as `connect` builds it: no entry ends at `node`
      and no two entries share a target. */
  ghost predicate OutsLinked(s: Store, node: nat)
    requires StoreOk(s) && node < |s.nodes|
  {
    var outs := s.nodes[node].outs;
    && (forall k :: 0 <= k < |outs| ==> s.conns[outs[k]].to != node)
    && (forall k, l :: 0 <= k < l < |outs| ==> s.conns[outs[k]].to != s.conns[outs[l]].to)
  }

  /** The source (`incoming`) or the target of a connection. */
  function End(c: Connection, incoming: bool): nat
  {
    if incoming then c.from else c.to
  }

  /** The sources (`incoming`) or targets of the connections `cs`, the last
      connection's first: the order in which `remove` collects them. */
  function Ends(s: Store, cs: seq<nat>, incoming: bool): (r: seq<nat>)
    requires IdsBelow(cs, |s.conns|)
    ensures |r| == |cs|
    ensures forall k :: 0 <= k < |cs| ==> r[k] == End(s.conns[cs[|cs| - 1 - k]], incoming)
  {
    if cs == [] then [] else Ends(s, cs[1..], incoming) + [End(s.conns[cs[0]], incoming)]
  }

  /** Every source `node` had in `s` projects, in `t`, to every target it
      had in `s`. */
  ghost predicate Bridges(s: Store, t: Store, node: nat)
    requires StoreOk(s) && StoreOk(t) && node < |s.nodes| <= |t.nodes|
  {
    var ins := s.nodes[node].ins;
    var outs := s.nodes[node].outs;
    forall p, q :: 0 <= p < |ins| && 0 <= q < |outs| ==>
      ProjectsTo(t, s.conns[ins[p]].from, s.conns[outs[q]].to)
  }

  /** The first out-connection to `b` depends only on the out-list and the
      connections' targets. */
  lemma FirstOutToSame(s: Store, t: Store, a: nat, b: nat)
    requires StoreOk(s) && StoreOk(t) && SameEnds(s, t) && a < |s.nodes|
    requires t.nodes[a].outs == s.nodes[a].outs
    ensures FirstOutTo(t, a, b, 0) == FirstOutTo(s, a, b, 0)
  {
    var i := FirstOutTo(s, a, b, 0);
    var outs := s.nodes[a].outs;
    assert forall k :: 0 <= k < |outs| ==> t.conns[outs[k]].to == s.conns[outs[k]].to by {
      assert NodeOk(s.nodes[a], |s.conns|);
    }
  }

  /** Unchanged links keep both wiring predicates and the collected ends. */
  lemma LinkedKept(s: Store, t: Store, node: nat)
    requires StoreOk(s) && StoreOk(t) && SameLinks(s, t) && node < |s.nodes|
    ensures InsLinked(s, node) ==> InsLinked(t, node)
    ensures OutsLinked(s, node) ==> OutsLinked(t, node)
  {
    if InsLinked(s, node) {
      var ins := s.nodes[node].ins;
      forall k | 0 <= k < |ins|
        ensures InLinked(t, node, ins[k])
      {
        assert InLinked(s, node, ins[k]);
        FirstOutToSame(s, t, s.conns[ins[k]].from, node);
      }
    }
  }

  /** A store grown at the end finds the same first out-connection to `b`. */
  lemma FirstOutToGrown(s: Store, t: Store, a: nat, b: nat)
    requires StoreOk(s) && StoreOk(t) && a < |s.nodes| <= |t.nodes| && |s.conns| <= |t.conns|
    requires t.conns[..|s.conns|] == s.conns
    requires |s.nodes[a].outs| <= |t.nodes[a].outs| && t.nodes[a].outs[..|s.nodes[a].outs|] == s.nodes[a].outs
    requires FirstOutTo(s, a, b, 0) != -1
    ensures FirstOutTo(t, a, b, 0) == FirstOutTo(s, a, b, 0)
  {
    var i := FirstOutTo(s, a, b, 0);
    var outs := s.nodes[a].outs;
    assert NodeOk(s.nodes[a], |s.conns|);
    assert forall k :: 0 <= k <= i ==> t.nodes[a].outs[k] == outs[k] && t.conns[outs[k]] == s.conns[outs[k]];
  }

  /** `t` is `s` with one new connection from `from` to `to`, filed at the
      end of `from`'s out-list and of `to`'s in-list. */
  predicate GrownBy(s: Store, t: Store, from: nat, to: nat)
    requires StoreOk(s) && from < |s.nodes| && to < |s.nodes|
  {
    && |t.nodes| == |s.nodes| && |t.conns| == |s.conns| + 1 && t.conns[..|s.conns|] == s.conns
    && t.conns[|s.conns|].from == from && t.conns[|s.conns|].to == to
    && t.nodes[from].outs == s.nodes[from].outs + [|s.conns|]
    && t.nodes[to].ins == s.nodes[to].ins + [|s.conns|]
    && (forall k :: 0 <= k < |s.nodes| && k != from ==> t.nodes[k].outs == s.nodes[k].outs)
    && (forall k :: 0 <= k < |s.nodes| && k != to ==> t.nodes[k].ins == s.nodes[k].ins)
    && (forall k :: 0 <= k < |s.nodes| ==> t.nodes[k].self == s.nodes[k].self)
  }

  /** The old entries of `node`'s in-list stay filed. */
  lemma GrownKeepsIns(s: Store, t: Store, from: nat, to: nat, node: nat)
    requires StoreOk(s) && StoreOk(t) && from < |s.nodes| && to < |s.nodes| && GrownBy(s, t, from, to)
    requires node < |s.nodes| && InsLinked(s, node)
    ensures forall k :: 0 <= k < |s.nodes[node].ins| ==> InLinked(t, node, s.nodes[node].ins[k])
  {
    var ins := s.nodes[node].ins;
    assert NodeOk(s.nodes[node], |s.conns|);
    forall k | 0 <= k < |ins|
      ensures InLinked(t, node, ins[k])
    {
      assert InLinked(s, node, ins[k]);
      var a := s.conns[ins[k]].from;
      assert |s.nodes[a].outs| <= |t.nodes[a].outs| && t.nodes[a].outs[..|s.nodes[a].outs|] == s.nodes[a].outs;
      FirstOutToGrown(s, t, a, node);
    }
  }

  /** The new connection is filed in `to`'s in-list when `from` did not
      project to `to`. */
  lemma GrownFilesNew(s: Store, t: Store, from: nat, to: nat)
    requires StoreOk(s) && StoreOk(t) && from < |s.nodes| && to < |s.nodes| && GrownBy(s, t, from, to)
    requires from != to && !ProjectsTo(s, from, to) && s.nodes[from].self != s.nodes[to].self
    ensures InLinked(t, to, |s.conns|)
  {
    var outs := s.nodes[from].outs;
    NotProjecting(s, from, to);
    assert NodeOk(s.nodes[from], |s.conns|);
    assert forall k :: 0 <= k < |outs| ==> t.nodes[from].outs[k] == outs[k] && t.conns[outs[k]] == s.conns[outs[k]];
    assert t.nodes[from].outs[|outs|] == |s.conns|;
    assert FirstOutTo(t, from, to, 0) == |outs|;
  }

  /** `from.connect(to)` between two nodes, the first not projecting to the
      second and each with its own self-connection, keeps every node's
      lists filed as `connect` files them: the wiring `remove` relies on
      is what `connect` builds. */
  lemma ConnectedKeepsLinked(s: Store, from: nat, to: nat, weight: Option<real>, r: real, node: nat)
    requires StoreOk(s) && from < |s.nodes| && to < |s.nodes| && from != to && 0.0 <= r < 1.0
    requires !ProjectsTo(s, from, to) && s.nodes[from].self != s.nodes[to].self
    requires node < |s.nodes| && InsLinked(s, node) && OutsLinked(s, node)
    ensures InsLinked(Connected(s, from, to, weight, r), node)
    ensures OutsLinked(Connected(s, from, to, weight, r), node)
  {
    var t := Connected(s, from, to, weight, r);
    assert GrownBy(s, t, from, to);
    GrownKeepsIns(s, t, from, to, node);
    var ins, outs := s.nodes[node].ins, s.nodes[node].outs;
    assert NodeOk(s.nodes[node], |s.conns|);
    if node == to {
      GrownFilesNew(s, t, from, to);
      forall k | 0 <= k < |ins|
        ensures s.conns[ins[k]].from != from
      {
        assert InLinked(s, node, ins[k]);
        NotProjecting(s, from, to);
      }
      assert t.nodes[node].ins == ins + [|s.conns|];
    } else {
      assert t.nodes[node].ins == ins;
    }
    if node == from {
      NotProjecting(s, from, to);
      assert t.nodes[node].outs == outs + [|s.conns|];
    } else {
      assert t.nodes[node].outs == outs;
    }
  }

  lemma EndsSame(s: Store, t: Store, cs: seq<nat>, incoming: bool)
    requires SameEnds(s, t) && IdsBelow(cs, |s.conns|)
    ensures Ends(t, cs, incoming) == Ends(s, cs, incoming)
  {
    var a, b := Ends(t, cs, incoming), Ends(s, cs, incoming);
    assert forall k :: 0 <= k < |cs| ==> a[k] == b[k];
  }

  /** A projection lives on the out-list, the targets and the self weight. */
  lemma WiringKeepsProjection(s: Store, t: Store, a: nat, b: nat)
    requires StoreOk(s) && StoreOk(t) && SameWiring(s, t) && a < |s.nodes|
    requires ProjectsTo(s, a, b)
    ensures ProjectsTo(t, a, b)
  {
    if !(a == b && s.conns[s.nodes[a].self].weight != 0.0) {
      var i :| 0 <= i < |s.nodes[a].outs| && s.conns[s.nodes[a].outs[i]].to == b;
      assert t.conns[t.nodes[a].outs[i]].to == b;
    }
  }

  lemma GateOneWiring(s: Store, g: nat, c: nat)
    requires StoreOk(s) && g < |s.nodes| && c < |s.conns|
    ensures SameWiring(s, GateOne(s, g, c))
  {
  }

  lemma NetUngateWiring(s: Store, gates: seq<nat>, c: nat)
    requires StoreOk(s) && c < |s.conns|
    ensures NetUngate(s, gates, c).Done? ==> SameWiring(s, NetUngate(s, gates, c).value.0)
  {
    if NetUngate(s, gates, c).Done? {
      UngateOneFrame(s, s.conns[c].gater.value, c);
    }
  }

  lemma NetGateWiring(s: Store, nodes: seq<nat>, gates: seq<nat>, node: nat, c: nat)
    requires StoreOk(s) && node < |s.nodes| && c < |s.conns|
    ensures NetGate(s, nodes, gates, node, c).Done? ==> SameWiring(s, NetGate(s, nodes, gates, node, c).value.0)
  {
    GateOneWiring(s, node, c);
  }

  /** The list half of `disconnect` changes at most gating. */
  lemma NetUnlistWiring(s: Store, f: NetworkFields, from: nat, to: nat)
    requires FieldsOk(s, f)
    ensures NetUnlist(s, f, from, to).Done? ==> SameWiring(s, NetUnlist(s, f, from, to).value.0)
  {
    var list := Listed(f, from == to);
    var i := FirstLink(s, list, from, to);
    if i != -1 && s.conns[list[i]].gater.Some? {
      NetUngateWiring(s, f.gates, list[i]);
    }
  }

  /** The copy loop of `remove` changes at most gating. */
  lemma {:induction false} UngateCopyWiring(s: Store, gates: seq<nat>, cs: seq<nat>)
    requires StoreOk(s) && IdsBelow(cs, |s.conns|)
    ensures UngateCopy(s, gates, cs).Done? ==> SameWiring(s, UngateCopy(s, gates, cs).value.0)
    decreases |cs|
  {
    if cs != [] && NetUngate(s, gates, cs[0]).Done? {
      var u := NetUngate(s, gates, cs[0]).value;
      NetUngateWiring(s, gates, cs[0]);
      UngateCopyWiring(u.0, u.1, cs[1..]);
      if UngateCopy(s, gates, cs).Done? {
        SameWiringTrans(s, u.0, UngateCopy(s, gates, cs).value.0);
      }
    }
  }

  /** `disconnect(node, node)` keeps every link and changes only the
      node's own self weight. */
  lemma SelfDisconnectLinks(s: Store, f: NetworkFields, node: nat)
    requires FieldsOk(s, f) && node < |s.nodes|
    ensures var r := NetDisconnect(s, f, node, node);
            r.Done? ==> && SameLinks(s, r.value.0)
                        && forall x :: 0 <= x < |s.conns| && x != s.nodes[node].self ==>
                             r.value.0.conns[x].weight == s.conns[x].weight
  {
    NetUnlistWiring(s, f, node, node);
  }

  /** ... and so keeps every projection but the node's onto itself. */
  lemma SelfDisconnectKeepsProjection(s: Store, f: NetworkFields, node: nat, a: nat, b: nat)
    requires FieldsOk(s, f) && node < |s.nodes| && a < |s.nodes|
    requires NetDisconnect(s, f, node, node).Done? && ProjectsTo(s, a, b)
    requires s.nodes[a].self != s.nodes[node].self
    ensures ProjectsTo(NetDisconnect(s, f, node, node).value.0, a, b)
  {
    var t := NetDisconnect(s, f, node, node).value.0;
    SelfDisconnectLinks(s, f, node);
    if !(a == b && s.conns[s.nodes[a].self].weight != 0.0) {
      var i :| 0 <= i < |s.nodes[a].outs| && s.conns[s.nodes[a].outs[i]].to == b;
      assert t.conns[t.nodes[a].outs[i]].to == b;
    }
  }

  lemma JoinBelow(a: seq<nat>, b: seq<nat>, k: nat)
    requires IdsBelow(a, k) && IdsBelow(b, k)
    ensures IdsBelow(a + b, k)
  {
    assert forall i :: 0 <= i < |a + b| ==> (a + b)[i] == if i < |a| then a[i] else b[i - |a|];
  }

  lemma SameEndsTrans(s: Store, t: Store, u: Store)
    requires SameEnds(s, t) && SameEnds(t, u)
    ensures SameEnds(s, u)
  {
  }

  /** What unlinking a connection changes: `a`'s out-list and `b`'s in-list. */
  lemma UnlinkedFrame(s: Store, a: nat, b: nat, i: nat, c: nat)
    requires StoreOk(s) && a < |s.nodes| && b < |s.nodes| && a != b && c < |s.conns|
    ensures var t := Unlinked(s, a, b, i, c);
            && t.nodes[a].outs == SpliceAt(s.nodes[a].outs, i)
            && t.nodes[b].ins == SpliceAt(s.nodes[b].ins, IndexOf(s.nodes[b].ins, c))
            && (forall n :: 0 <= n < |s.nodes| && n != a ==> t.nodes[n].outs == s.nodes[n].outs)
            && (forall n :: 0 <= n < |s.nodes| && n != b ==> t.nodes[n].ins == s.nodes[n].ins)
            && (forall n :: 0 <= n < |s.nodes| ==> t.nodes[n].self == s.nodes[n].self && t.nodes[n].gated == s.nodes[n].gated)
  {
  }

  /** The node half of `a.disconnect(b)` when `a` has a connection to `b`:
      the first such connection leaves `a`'s out-list and `b`'s in-list, and
      every other list and every end stays. */
  lemma DisconnectedOneFrame(s: Store, a: nat, b: nat)
    requires StoreOk(s) && a < |s.nodes| && b < |s.nodes| && a != b && FirstOutTo(s, a, b, 0) != -1
    ensures var i := FirstOutTo(s, a, b, 0);
            var c := s.nodes[a].outs[i];
            var t := DisconnectedOne(s, a, b);
            && SameEnds(s, t)
            && t.nodes[a].outs == SpliceAt(s.nodes[a].outs, i)
            && t.nodes[b].ins == SpliceAt(s.nodes[b].ins, IndexOf(s.nodes[b].ins, c))
            && (forall n :: 0 <= n < |s.nodes| && n != a ==> t.nodes[n].outs == s.nodes[n].outs)
            && (forall n :: 0 <= n < |s.nodes| && n != b ==> t.nodes[n].ins == s.nodes[n].ins)
  {
    var i := FirstOutTo(s, a, b, 0);
    var c := s.nodes[a].outs[i];
    var v := Unlinked(s, a, b, i, c);
    UnlinkedFrame(s, a, b, i, c);
    if v.conns[c].gater.Some? {
      UngateOneFrame(v, v.conns[c].gater.value, c);
    }
  }

  /** `disconnect(a, b)` between two nodes with a connection from `a` to
      `b`: the list half changes at most gating, then the node half as
      above. */
  lemma NetDisconnectStep(s: Store, f: NetworkFields, a: nat, b: nat)
    requires FieldsOk(s, f) && a < |s.nodes| && b < |s.nodes| && a != b && FirstOutTo(s, a, b, 0) != -1
    ensures var i := FirstOutTo(s, a, b, 0);
            var c := s.nodes[a].outs[i];
            var r := NetDisconnect(s, f, a, b);
            r.Done? ==>
              && SameEnds(s, r.value.0)
              && r.value.0.nodes[a].outs == SpliceAt(s.nodes[a].outs, i)
              && r.value.0.nodes[b].ins == SpliceAt(s.nodes[b].ins, IndexOf(s.nodes[b].ins, c))
              && (forall n :: 0 <= n < |s.nodes| && n != a ==> r.value.0.nodes[n].outs == s.nodes[n].outs)
              && (forall n :: 0 <= n < |s.nodes| && n != b ==> r.value.0.nodes[n].ins == s.nodes[n].ins)
  {
    if NetDisconnect(s, f, a, b).Done? {
      var u := NetUnlist(s, f, a, b).value.0;
      NetUnlistWiring(s, f, a, b);
      FirstOutToSame(s, u, a, b);
      DisconnectedOneFrame(u, a, b);
    }
  }

  /** One round of the input loop of `remove`: disconnecting the source of
      the last incoming connection drops exactly that connection from the
      end of the in-list and keeps the rest filed as before. */
  lemma DisconnectLastIn(s: Store, f: NetworkFields, node: nat)
    requires FieldsOk(s, f) && node < |s.nodes| && InsLinked(s, node) && s.nodes[node].ins != []
    ensures var r := NetDisconnect(s, f, s.conns[s.nodes[node].ins[|s.nodes[node].ins| - 1]].from, node);
            r.Done? ==> InStep(s, r.value.0, node)
  {
    var ins := s.nodes[node].ins;
    var n := |ins| - 1;
    var c := ins[n];
    assert InLinked(s, node, c);
    var a := s.conns[c].from;
    NetDisconnectStep(s, f, a, node);
    var r := NetDisconnect(s, f, a, node);
    if r.Done? {
      assert c !in ins[..n];
      InsLinkedDropLast(s, r.value.0, node);
    }
  }

  /** Dropping the last incoming connection, and with it the first link to
      `node` from that connection's source, keeps the rest filed. */
  lemma InsLinkedDropLast(s: Store, t: Store, node: nat)
    requires StoreOk(s) && StoreOk(t) && SameEnds(s, t) && node < |s.nodes|
    requires InsLinked(s, node) && s.nodes[node].ins != []
    requires t.nodes[node].ins == s.nodes[node].ins[..|s.nodes[node].ins| - 1]
    requires forall n :: 0 <= n < |s.nodes| && n != s.conns[s.nodes[node].ins[|s.nodes[node].ins| - 1]].from ==>
               t.nodes[n].outs == s.nodes[n].outs
    ensures InsLinked(t, node)
  {
    var ins := s.nodes[node].ins;
    var n := |ins| - 1;
    forall k | 0 <= k < n
      ensures InLinked(t, node, ins[k])
    {
      assert InLinked(s, node, ins[k]);
      FirstOutToSame(s, t, s.conns[ins[k]].from, node);
    }
  }

  /** One round of the output loop of `remove`: disconnecting the node from
      the target of its last outgoing connection drops exactly that
      connection from the end of the out-list. */
  lemma DisconnectLastOut(s: Store, f: NetworkFields, node: nat)
    requires FieldsOk(s, f) && node < |s.nodes| && OutsLinked(s, node) && s.nodes[node].outs != []
    ensures var r := NetDisconnect(s, f, node, s.conns[s.nodes[node].outs[|s.nodes[node].outs| - 1]].to);
            r.Done? ==> OutStep(s, r.value.0, node)
  {
    var outs := s.nodes[node].outs;
    var m := |outs| - 1;
    var b := s.conns[outs[m]].to;
    assert FirstOutTo(s, node, b, 0) == m;
    NetDisconnectStep(s, f, node, b);
  }

  /** `t` is `s` after one round of the input loop of `remove`: `node`'s
      last incoming connection is gone and the rest is filed as before. */
  ghost predicate InStep(s: Store, t: Store, node: nat)
    requires StoreOk(s) && StoreOk(t) && node < |s.nodes| && s.nodes[node].ins != []
  {
    && SameEnds(s, t) && t.nodes[node].ins == s.nodes[node].ins[..|s.nodes[node].ins| - 1]
    && t.nodes[node].outs == s.nodes[node].outs && InsLinked(t, node)
    && (OutsLinked(s, node) ==> OutsLinked(t, node))
  }

  /** `t` is `s` after one round of the output loop of `remove`. */
  ghost predicate OutStep(s: Store, t: Store, node: nat)
    requires StoreOk(s) && StoreOk(t) && node < |s.nodes| && s.nodes[node].outs != []
  {
    && SameEnds(s, t) && t.nodes[node].outs == s.nodes[node].outs[..|s.nodes[node].outs| - 1]
    && t.nodes[node].ins == s.nodes[node].ins && OutsLinked(t, node)
  }

  /** The input loop of `remove` after the rounds above `i`, started on
      `s0` with its in-list well filed: the entries above `i` are gone and
      their sources collected, last first. */
  ghost predicate InsDropped(s0: Store, t: Store, node: nat, i: int, inputs: seq<nat>)
    requires StoreOk(s0) && StoreOk(t) && node < |s0.nodes| && -1 <= i < |s0.nodes[node].ins|
  {
    var ins0 := s0.nodes[node].ins;
    InsLinked(s0, node) ==>
      && SameEnds(s0, t) && t.nodes[node].ins == ins0[..i + 1] && InsLinked(t, node)
      && t.nodes[node].outs == s0.nodes[node].outs && (OutsLinked(s0, node) ==> OutsLinked(t, node))
      && inputs == Ends(s0, ins0[i + 1..], true)
  }

  /** The output loop of `remove` after the rounds above `i`. */
  ghost predicate OutsDropped(s0: Store, t: Store, node: nat, i: int, outputs: seq<nat>)
    requires StoreOk(s0) && StoreOk(t) && node < |s0.nodes| && -1 <= i < |s0.nodes[node].outs|
  {
    var outs0 := s0.nodes[node].outs;
    OutsLinked(s0, node) ==>
      && SameEnds(s0, t) && t.nodes[node].outs == outs0[..i + 1] && OutsLinked(t, node)
      && t.nodes[node].ins == s0.nodes[node].ins && outputs == Ends(s0, outs0[i + 1..], false)
  }

  /** Inside the input loop the in-list ends at entry `i`. */
  lemma InsDroppedLast(s0: Store, s: Store, node: nat, i: nat, inputs: seq<nat>)
    requires StoreOk(s0) && StoreOk(s) && node < |s0.nodes| && i < |s0.nodes[node].ins|
    requires InsDropped(s0, s, node, i, inputs) && InsLinked(s0, node)
    ensures |s.nodes| == |s0.nodes| && InsLinked(s, node) && |s.nodes[node].ins| == i + 1
  {
  }

  /** Inside the output loop the out-list ends at entry `i`. */
  lemma OutsDroppedLast(s0: Store, s: Store, node: nat, i: nat, outputs: seq<nat>)
    requires StoreOk(s0) && StoreOk(s) && node < |s0.nodes| && i < |s0.nodes[node].outs|
    requires OutsDropped(s0, s, node, i, outputs) && OutsLinked(s0, node)
    ensures |s.nodes| == |s0.nodes| && OutsLinked(s, node) && |s.nodes[node].outs| == i + 1
  {
  }

  /** When the input loop ends, the in-list is empty, every source was
      collected and the rest of the wiring is as it was. */
  lemma InsDroppedAll(s0: Store, t: Store, node: nat, inputs: seq<nat>)
    requires StoreOk(s0) && StoreOk(t) && node < |s0.nodes|
    requires InsDropped(s0, t, node, -1, inputs) && InsLinked(s0, node)
    ensures inputs == Ends(s0, s0.nodes[node].ins, true)
    ensures t.nodes[node].ins == [] && t.nodes[node].outs == s0.nodes[node].outs && SameEnds(s0, t)
    ensures OutsLinked(s0, node) ==> OutsLinked(t, node)
  {
    assert s0.nodes[node].ins[0..] == s0.nodes[node].ins;
  }

  /** When the output loop ends, the out-list is empty and every target was
      collected. */
  lemma OutsDroppedAll(s0: Store, t: Store, node: nat, outputs: seq<nat>)
    requires StoreOk(s0) && StoreOk(t) && node < |s0.nodes|
    requires OutsDropped(s0, t, node, -1, outputs) && OutsLinked(s0, node)
    ensures outputs == Ends(s0, s0.nodes[node].outs, false)
    ensures t.nodes[node].outs == [] && t.nodes[node].ins == s0.nodes[node].ins && SameEnds(s0, t)
  {
    assert s0.nodes[node].outs[0..] == s0.nodes[node].outs;
  }

  lemma InsDroppedStep(s0: Store, s: Store, t: Store, node: nat, i: nat, inputs: seq<nat>)
    requires StoreOk(s0) && StoreOk(s) && StoreOk(t) && node < |s0.nodes| && i < |s0.nodes[node].ins|
    requires InsDropped(s0, s, node, i, inputs) && InsLinked(s0, node)
    requires |s.nodes| == |s0.nodes| && InStep(s, t, node)
    ensures InsDropped(s0, t, node, i - 1, inputs + [s.conns[s.nodes[node].ins[i]].from])
  {
    var ins0 := s0.nodes[node].ins;
    SameEndsTrans(s0, s, t);
    assert ins0[..i + 1][..i] == ins0[..i];
    assert ins0[i..][1..] == ins0[i + 1..];
  }

  lemma OutsDroppedStep(s0: Store, s: Store, t: Store, node: nat, i: nat, outputs: seq<nat>)
    requires StoreOk(s0) && StoreOk(s) && StoreOk(t) && node < |s0.nodes| && i < |s0.nodes[node].outs|
    requires OutsDropped(s0, s, node, i, outputs) && OutsLinked(s0, node)
    requires |s.nodes| == |s0.nodes| && OutStep(s, t, node)
    ensures OutsDropped(s0, t, node, i - 1, outputs + [s.conns[s.nodes[node].outs[i]].to])
  {
    var outs0 := s0.nodes[node].outs;
    SameEndsTrans(s0, s, t);
    assert outs0[..i + 1][..i] == outs0[..i];
    assert outs0[i..][1..] == outs0[i + 1..];
  }

  /** Every source `node` had in `s` has, in `t`, a self-connection other
      than `node`'s. */
  ghost predicate SourcesApart(s: Store, t: Store, node: nat)
    requires StoreOk(s) && StoreOk(t) && node < |s.nodes| <= |t.nodes|
  {
    var ins := s.nodes[node].ins;
    forall p :: 0 <= p < |ins| ==> t.nodes[s.conns[ins[p]].from].self != t.nodes[node].self
  }

  /** One pair of the bridging of `remove`: the `p`-th source of `node`
      projects to its `q`-th target once the collected ends do, through an
      ungating that changes at most gating. */
  lemma BridgedPair(s0: Store, s4: Store, s6: Store, node: nat, inputs: seq<nat>, outputs: seq<nat>, p: nat, q: nat)
    requires StoreOk(s0) && StoreOk(s4) && StoreOk(s6) && node < |s0.nodes|
    requires p < |s0.nodes[node].ins| && q < |s0.nodes[node].outs|
    requires inputs == Ends(s0, s0.nodes[node].ins, true) && outputs == Ends(s0, s0.nodes[node].outs, false)
    requires |s0.nodes| <= |s4.nodes| && IdsBelow(inputs, |s4.nodes|) && IdsBelow(outputs, |s4.nodes|)
    requires forall a, b :: 0 <= a < |inputs| && 0 <= b < |outputs| ==> ProjectsTo(s4, inputs[a], outputs[b])
    requires SameWiring(s4, s6)
    ensures ProjectsTo(s6, s0.conns[s0.nodes[node].ins[p]].from, s0.conns[s0.nodes[node].outs[q]].to)
  {
    var ins, outs := s0.nodes[node].ins, s0.nodes[node].outs;
    assert inputs[|ins| - 1 - p] == s0.conns[ins[p]].from;
    assert outputs[|outs| - 1 - q] == s0.conns[outs[q]].to;
    WiringKeepsProjection(s4, s6, inputs[|ins| - 1 - p], outputs[|outs| - 1 - q]);
  }

  /** The bridging of `remove` on a node whose lists are filed as `connect`
      files them: once every collected source projects to every collected
      target (`s4`), ungating that changes at most gating (`s6`) leaves
      every old source projecting to every old target. */
  lemma RemoveBridged(s0: Store, s4: Store, s6: Store, node: nat, inputs: seq<nat>, outputs: seq<nat>)
    requires StoreOk(s0) && StoreOk(s4) && StoreOk(s6) && node < |s0.nodes|
    requires inputs == Ends(s0, s0.nodes[node].ins, true) && outputs == Ends(s0, s0.nodes[node].outs, false)
    requires |s0.nodes| <= |s4.nodes| && IdsBelow(inputs, |s4.nodes|) && IdsBelow(outputs, |s4.nodes|)
    requires forall a, b :: 0 <= a < |inputs| && 0 <= b < |outputs| ==> ProjectsTo(s4, inputs[a], outputs[b])
    requires SameWiring(s4, s6)
    ensures Bridges(s0, s6, node)
  {
    forall p, q | 0 <= p < |s0.nodes[node].ins| && 0 <= q < |s0.nodes[node].outs|
      ensures ProjectsTo(s6, s0.conns[s0.nodes[node].ins[p]].from, s0.conns[s0.nodes[node].outs[q]].to)
    {
      BridgedPair(s0, s4, s6, node, inputs, outputs, p, q);
    }
  }

  /** The sources of a node filed as `connect` files them keep
      self-connections other than the node's through steps that keep every
      node's self-connection. */
  lemma RemoveSourcesApart(s0: Store, s6: Store, node: nat)
    requires StoreOk(s0) && StoreOk(s6) && node < |s0.nodes| <= |s6.nodes|
    requires InsLinked(s0, node)
    requires forall n :: 0 <= n < |s0.nodes| ==> s6.nodes[n].self == s0.nodes[n].self
    ensures SourcesApart(s0, s6, node)
  {
    var ins := s0.nodes[node].ins;
    forall p | 0 <= p < |ins|
      ensures s6.nodes[s0.conns[ins[p]].from].self != s6.nodes[node].self
    {
      assert InLinked(s0, node, ins[p]);
    }
  }

  /** From `s` to `t` every node whose self-connection is not `node`'s
      keeps every projection it had. */
  ghost predicate KeepsApart(s: Store, t: Store, node: nat)
    requires StoreOk(s) && StoreOk(t) && node < |s.nodes|
  {
    && |t.nodes| == |s.nodes|
    && forall a, b :: 0 <= a < |s.nodes| && s.nodes[a].self != s.nodes[node].self && ProjectsTo(s, a, b) ==>
         ProjectsTo(t, a, b)
  }

  /** A last step that keeps the projections of every node whose
      self-connection is not `node`'s keeps the bridging. */
  lemma BridgesKept(s0: Store, s6: Store, t: Store, node: nat)
    requires StoreOk(s0) && StoreOk(s6) && StoreOk(t) && node < |s0.nodes| <= |s6.nodes| == |t.nodes|
    requires Bridges(s0, s6, node) && SourcesApart(s0, s6, node)
    requires KeepsApart(s6, t, node)
    ensures Bridges(s0, t, node)
  {
    var ins, outs := s0.nodes[node].ins, s0.nodes[node].outs;
    forall p, q | 0 <= p < |ins| && 0 <= q < |outs|
      ensures ProjectsTo(t, s0.conns[ins[p]].from, s0.conns[outs[q]].to)
    {
      assert ProjectsTo(s6, s0.conns[ins[p]].from, s0.conns[outs[q]].to);
    }
  }

  /** The chain of `remove` on a node filed as `connect` files it: its
      sources and targets collected (`s3`), bridged (`s4`), regated and
      ungated (`s6`) and the node's own link dropped (`t`). */
  lemma DetachBridges(s0: Store, s3: Store, s4: Store, s6: Store, t: Store, node: nat, inputs: seq<nat>, outputs: seq<nat>)
    requires StoreOk(s0) && StoreOk(s3) && StoreOk(s4) && StoreOk(s6) && StoreOk(t) && node < |s0.nodes|
    requires InsLinked(s0, node)
    requires inputs == Ends(s0, s0.nodes[node].ins, true) && outputs == Ends(s0, s0.nodes[node].outs, false)
    requires SameEnds(s0, s3) && |s4.nodes| == |s3.nodes|
    requires forall n :: 0 <= n < |s4.nodes| ==> s4.nodes[n].self == s3.nodes[n].self
    requires IdsBelow(inputs, |s4.nodes|) && IdsBelow(outputs, |s4.nodes|)
    requires forall a, b :: 0 <= a < |inputs| && 0 <= b < |outputs| ==> ProjectsTo(s4, inputs[a], outputs[b])
    requires SameWiring(s4, s6) && KeepsApart(s6, t, node)
    ensures Bridges(s0, t, node)
  {
    RemoveBridged(s0, s4, s6, node, inputs, outputs);
    RemoveSourcesApart(s0, s6, node);
    BridgesKept(s0, s6, t, node);
  }

  /** `disconnect(node, node)` keeps the projections of every node whose
      self-connection is not `node`'s. */
  lemma SelfDisconnectKeepsAll(s: Store, f: NetworkFields, node: nat)
    requires FieldsOk(s, f) && node < |s.nodes| && NetDisconnect(s, f, node, node).Done?
    ensures forall a, b :: 0 <= a < |s.nodes| && s.nodes[a].self != s.nodes[node].self && ProjectsTo(s, a, b) ==>
              ProjectsTo(NetDisconnect(s, f, node, node).value.0, a, b)
  {
    forall a, b | 0 <= a < |s.nodes| && s.nodes[a].self != s.nodes[node].self && ProjectsTo(s, a, b)
      ensures ProjectsTo(NetDisconnect(s, f, node, node).value.0, a, b)
    {
      SelfDisconnectKeepsProjection(s, f, node, a, b);
    }
  }

  // The gating bookkeeping under which `remove` cannot throw.

  /** The gating bookkeeping that `gate` and `ungate` keep: a gated
      connection is in `gates` and in its gater's `gated` list, and its
      gater is in `nodes`; a node's `gated` list holds connections the node
      gates, each once. */
  ghost predicate GatesKept(s: Store, f: NetworkFields)
    requires StoreOk(s)
  {
    && (forall c :: 0 <= c < |s.conns| && s.conns[c].gater.Some? ==>
          c in f.gates && s.conns[c].gater.value in f.nodes && c in s.nodes[s.conns[c].gater.value].gated)
    && (forall n :: 0 <= n < |s.nodes| ==> Distinct(s.nodes[n].gated))
    && (forall n, k :: 0 <= n < |s.nodes| && 0 <= k < |s.nodes[n].gated| ==>
          s.conns[s.nodes[n].gated[k]].gater == Some(n))
  }

  /** Dropping the one occurrence of `x` from a list without repeats. */
  lemma SpliceOnce(s: seq<nat>, x: nat)
    requires x in s && Distinct(s)
    ensures var r := SpliceAt(s, IndexOf(s, x));
            Distinct(r) && forall y :: y in r <==> y in s && y != x
  {
    var i := IndexOf(s, x);
    var r := SpliceAt(s, i);
    assert r == s[..i] + s[i + 1..];
    forall y | y in r
      ensures y in s && y != x
    {
      var k :| 0 <= k < |r| && r[k] == y;
      if k < i {
        assert r[k] == s[k];
      } else {
        assert r[k] == s[k + 1];
      }
    }
    forall y | y in s && y != x
      ensures y in r
    {
      var k :| 0 <= k < |s| && s[k] == y;
      if k < i {
        assert r[k] == y;
      } else {
        assert r[k - 1] == y;
      }
    }
    SpliceDistinct(s, i);
  }

  /** Dropping one entry from a list without repeats leaves none. */
  lemma SpliceDistinct(s: seq<nat>, i: nat)
    requires i < |s| && Distinct(s)
    ensures Distinct(SpliceAt(s, i))
  {
    var r := SpliceAt(s, i);
    forall a, b | 0 <= a < b < |r|
      ensures r[a] != r[b]
    {
      var a' := if a < i then a else a + 1;
      var b' := if b < i then b else b + 1;
      assert r[a] == s[a'] && r[b] == s[b'];
    }
  }

  /** `gater.ungate(c)` for a connection `c` that `g` gates keeps the
      bookkeeping once `c` leaves `gates`. */
  lemma UngateOneKeeps(s: Store, f: NetworkFields, g: nat, c: nat, gates': seq<nat>)
    requires StoreOk(s) && GatesKept(s, f) && g < |s.nodes| && c < |s.conns| && s.conns[c].gater == Some(g)
    requires forall x :: x in f.gates && x != c ==> x in gates'
    ensures GatesKept(UngateOne(s, g, c), f.(gates := gates'))
  {
    var gated := s.nodes[g].gated;
    SpliceOnce(gated, c);
    var kept := SpliceAt(gated, IndexOf(gated, c));
    var t := UngateOne(s, g, c);
    assert t.nodes == s.nodes[g := s.nodes[g].(gated := kept)];
    assert t.conns == s.conns[c := s.conns[c].(gater := None, gain := 1.0)];
    forall n, k | 0 <= n < |t.nodes| && 0 <= k < |t.nodes[n].gated|
      ensures t.conns[t.nodes[n].gated[k]].gater == Some(n)
    {
      var x := t.nodes[n].gated[k];
      if n == g {
        assert x in kept;
      } else {
        assert x == s.nodes[n].gated[k];
      }
    }
  }

  /** `ungate(c)` on a gated connection cannot throw where the bookkeeping
      holds, and keeps it. */
  lemma NetUngateKeeps(s: Store, f: NetworkFields, c: nat)
    requires StoreOk(s) && GatesKept(s, f) && c < |s.conns| && s.conns[c].gater.Some?
    ensures NetUngate(s, f.gates, c).Done?
    ensures var u := NetUngate(s, f.gates, c).value;
            GatesKept(u.0, f.(gates := u.1))
  {
    var u := NetUngate(s, f.gates, c).value;
    forall x | x in f.gates && x != c
      ensures x in u.1
    {
      assert multiset(u.1)[x] == multiset(f.gates)[x];
    }
    UngateOneKeeps(s, f, s.conns[c].gater.value, c, u.1);
  }

  /** The list half of `disconnect` cannot throw where the bookkeeping
      holds, and keeps it. */
  lemma NetUnlistKeeps(s: Store, f: NetworkFields, from: nat, to: nat)
    requires FieldsOk(s, f) && GatesKept(s, f)
    ensures NetUnlist(s, f, from, to).Done?
    ensures var u := NetUnlist(s, f, from, to).value;
            GatesKept(u.0, u.1)
  {
    var list := Listed(f, from == to);
    var i := FirstLink(s, list, from, to);
    if i != -1 && s.conns[list[i]].gater.Some? {
      NetUngateKeeps(s, f, list[i]);
    }
  }

  /** `a.disconnect(b)` keeps the bookkeeping. */
  lemma DisconnectedOneKeeps(s: Store, f: NetworkFields, a: nat, b: nat)
    requires StoreOk(s) && GatesKept(s, f) && a < |s.nodes| && b < |s.nodes| && a != b
    ensures GatesKept(DisconnectedOne(s, a, b), f)
  {
    var i := FirstOutTo(s, a, b, 0);
    if i != -1 {
      var c := s.nodes[a].outs[i];
      var v := Unlinked(s, a, b, i, c);
      UnlinkedFrame(s, a, b, i, c);
      assert GatesKept(v, f);
      if v.conns[c].gater.Some? {
        UngateOneKeeps(v, f, v.conns[c].gater.value, c, f.gates);
        assert f.(gates := f.gates) == f;
      }
    }
  }

  /** `disconnect(from, to)` cannot throw where the bookkeeping holds, and
      keeps it. */
  lemma NetDisconnectKeeps(s: Store, f: NetworkFields, from: nat, to: nat)
    requires FieldsOk(s, f) && GatesKept(s, f) && from < |s.nodes| && to < |s.nodes|
    ensures NetDisconnect(s, f, from, to).Done?
    ensures var r := NetDisconnect(s, f, from, to).value;
            GatesKept(r.0, r.1)
  {
    NetUnlistKeeps(s, f, from, to);
    var u := NetUnlist(s, f, from, to).value;
    if from != to {
      DisconnectedOneKeeps(u.0, u.1, from, to);
    } else {
      var t := SelfDisconnected(u.0, from);
      assert t.nodes == u.0.nodes;
      assert forall x :: 0 <= x < |t.conns| ==> t.conns[x].gater == u.0.conns[x].gater;
    }
  }

  /** `gate(node, c)` by a node of the network cannot throw, and keeps the
      bookkeeping. */
  lemma NetGateKeeps(s: Store, f: NetworkFields, node: nat, c: nat)
    requires StoreOk(s) && GatesKept(s, f) && node < |s.nodes| && c < |s.conns| && node in f.nodes
    ensures NetGate(s, f.nodes, f.gates, node, c).Done?
    ensures var r := NetGate(s, f.nodes, f.gates, node, c).value;
            GatesKept(r.0, f.(gates := r.1))
  {
    if s.conns[c].gater.None? {
      GateOneKeeps(s, f, node, c);
    } else {
      assert f.(gates := f.gates) == f;
    }
  }

  /** `node.gate(c)` on an ungated connection, with `c` added to `gates`. */
  lemma GateOneKeeps(s: Store, f: NetworkFields, node: nat, c: nat)
    requires StoreOk(s) && GatesKept(s, f) && node < |s.nodes| && c < |s.conns| && node in f.nodes
    requires s.conns[c].gater.None?
    ensures GatesKept(GateOne(s, node, c), f.(gates := f.gates + [c]))
  {
    var gated := s.nodes[node].gated;
    var t := GateOne(s, node, c);
    forall k | 0 <= k < |gated|
      ensures gated[k] != c
    {
      assert s.conns[gated[k]].gater == Some(node);
    }
    assert t.nodes == s.nodes[node := s.nodes[node].(gated := gated + [c])];
    assert t.conns == s.conns[c := s.conns[c].(gater := Some(node))];
    forall n, k | 0 <= n < |t.nodes| && 0 <= k < |t.nodes[n].gated|
      ensures t.conns[t.nodes[n].gated[k]].gater == Some(n)
    {
      if n == node && k == |gated| {
        assert t.nodes[n].gated[k] == c;
      } else {
        assert t.nodes[n].gated[k] == s.nodes[n].gated[k];
      }
    }
  }

  /** `connect` keeps the bookkeeping: a new connection is not gated. */
  lemma AfterConnectKeeps(s: Store, f: NetworkFields, from: nat, to: nat, weight: Option<real>, r: real)
    requires StoreOk(s) && GatesKept(s, f) && from < |s.nodes| && to < |s.nodes| && 0.0 <= r < 1.0
    ensures GatesKept(AfterConnect(s, from, to, weight, r), f)
  {
    var t := AfterConnect(s, from, to, weight, r);
    if from == to {
      assert t.nodes == s.nodes;
      assert forall x :: 0 <= x < |t.conns| ==> t.conns[x].gater == s.conns[x].gater;
    } else if !ProjectsTo(s, from, to) {
      assert forall n :: 0 <= n < |s.nodes| ==> t.nodes[n].gated == s.nodes[n].gated;
      assert forall x :: 0 <= x < |s.conns| ==> t.conns[x] == s.conns[x];
    }
  }

  /** The corrected ungate loop over a copy of a node's `gated` list, where
      the bookkeeping holds: it cannot throw, keeps the bookkeeping and
      leaves the node gating nothing. `cs` is what is left of the copy. */
  lemma {:induction false} UngateCopyEmpties(s: Store, f: NetworkFields, node: nat, cs: seq<nat>)
    requires StoreOk(s) && GatesKept(s, f) && node < |s.nodes| && IdsBelow(cs, |s.conns|) && Distinct(cs)
    requires forall k :: 0 <= k < |cs| ==> s.conns[cs[k]].gater == Some(node)
    requires |s.nodes[node].gated| <= |cs|
    ensures UngateCopy(s, f.gates, cs).Done?
    ensures var r := UngateCopy(s, f.gates, cs).value;
            GatesKept(r.0, f.(gates := r.1)) && r.0.nodes[node].gated == []
    decreases |cs|
  {
    if cs != [] {
      var c := cs[0];
      NetUngateKeeps(s, f, c);
      var u := NetUngate(s, f.gates, c).value;
      RemoveFirst(s.nodes[node].gated, c);
      assert u.0.nodes[node].gated == SpliceAt(s.nodes[node].gated, IndexOf(s.nodes[node].gated, c));
      assert forall k :: 0 <= k < |cs| - 1 ==> cs[1..][k] == cs[k + 1];
      UngateCopyEmpties(u.0, f.(gates := u.1), node, cs[1..]);
      assert f.(gates := u.1).(gates := UngateCopy(s, f.gates, cs).value.1) == f.(gates := UngateCopy(s, f.gates, cs).value.1);
    }
  }

  /** The ungate loop of `remove`, run over a copy of the node's gated
      list, cannot throw under the bookkeeping, keeps it, and leaves the
      node gating nothing. */
  lemma UngateAllEmpties(s: Store, f: NetworkFields, node: nat)
    requires StoreOk(s) && GatesKept(s, f) && node < |s.nodes|
    ensures UngateCopy(s, f.gates, s.nodes[node].gated).Done?
    ensures var r := UngateCopy(s, f.gates, s.nodes[node].gated).value;
            GatesKept(r.0, f.(gates := r.1)) && r.0.nodes[node].gated == []
  {
    var cs := s.nodes[node].gated;
    assert NodeOk(s.nodes[node], |s.conns|);
    forall k | 0 <= k < |cs|
      ensures s.conns[cs[k]].gater == Some(node)
    {
    }
    UngateCopyEmpties(s, f, node, cs);
  }

  /** A node that gates nothing can leave `nodes` with the bookkeeping
      kept. */
  lemma RemovedKeeps(s: Store, f: NetworkFields, node: nat)
    requires StoreOk(s) && GatesKept(s, f) && node < |s.nodes| && s.nodes[node].gated == [] && node in f.nodes
    ensures GatesKept(s, f.(nodes := SpliceAt(f.nodes, IndexOf(f.nodes, node))))
  {
    RemoveFirst(f.nodes, node);
    var nodes' := SpliceAt(f.nodes, IndexOf(f.nodes, node));
    forall c | 0 <= c < |s.conns| && s.conns[c].gater.Some?
      ensures s.conns[c].gater.value in nodes'
    {
      var g := s.conns[c].gater.value;
      assert c in s.nodes[g].gated;
      assert g != node;
      assert multiset(nodes')[g] == multiset(f.nodes)[g];
    }
  }

  /** The last `disconnect(node, node)` of `remove`, for a node that gates
      nothing where the bookkeeping holds: it cannot throw, keeps the
      bookkeeping and the node's lists, and leaves its self weight 0. */
  lemma SelfUnlinkClears(s: Store, f: NetworkFields, node: nat)
    requires FieldsOk(s, f) && GatesKept(s, f) && node < |s.nodes| && s.nodes[node].gated == []
    ensures NetDisconnect(s, f, node, node).Done?
    ensures var r := NetDisconnect(s, f, node, node).value;
            && GatesKept(r.0, r.1) && r.0.nodes[node].gated == []
            && r.0.nodes[node].ins == s.nodes[node].ins && r.0.nodes[node].outs == s.nodes[node].outs
  {
    NetDisconnectKeeps(s, f, node, node);
    SelfDisconnectLinks(s, f, node);
    var u := NetUnlist(s, f, node, node).value;
    var list := f.selfconns;
    var i := FirstLink(s, list, node, node);
    if i != -1 && s.conns[list[i]].gater.Some? {
      var c := list[i];
      var g := s.conns[c].gater.value;
      assert c in s.nodes[g].gated;
      UngateOneFrame(s, g, c);
      assert u.0.nodes[node] == s.nodes[node];
    }
    assert u.0.nodes[node].gated == [];
  }

  /** `connect(from, to)` changes only the out-list of `from` and the
      in-list of `to`. */
  lemma AfterConnectFrame(s: Store, from: nat, to: nat, weight: Option<real>, r: real)
    requires StoreOk(s) && from < |s.nodes| && to < |s.nodes| && 0.0 <= r < 1.0
    ensures var t := AfterConnect(s, from, to, weight, r);
            && (forall n :: 0 <= n < |s.nodes| && n != from ==> t.nodes[n].outs == s.nodes[n].outs)
            && (forall n :: 0 <= n < |s.nodes| && n != to ==> t.nodes[n].ins == s.nodes[n].ins)
  {
    if from == to {
      assert AfterConnect(s, from, to, weight, r).nodes == s.nodes;
    }
  }

  /** A node filed as `connect` files it is neither one of its own sources
      nor one of its own targets. */
  lemma EndsAvoid(s: Store, node: nat)
    requires StoreOk(s) && node < |s.nodes| && InsLinked(s, node) && OutsLinked(s, node)
    ensures node !in Ends(s, s.nodes[node].ins, true) && node !in Ends(s, s.nodes[node].outs, false)
  {
    var ins, outs := s.nodes[node].ins, s.nodes[node].outs;
    forall k | 0 <= k < |ins|
      ensures Ends(s, ins, true)[k] != node
    {
      assert InLinked(s, node, ins[|ins| - 1 - k]);
    }
  }

  /** `disconnect(node, node)`, whenever it completes, leaves the node's
      self weight 0. */
  lemma SelfUnlinkZero(s: Store, f: NetworkFields, node: nat)
    requires FieldsOk(s, f) && node < |s.nodes| && NetDisconnect(s, f, node, node).Done?
    ensures var t := NetDisconnect(s, f, node, node).value.0;
            t.conns[t.nodes[node].self].weight == 0.0
  {
    var u := NetUnlist(s, f, node, node).value.0;
    assert NetDisconnect(s, f, node, node).value.0 == SelfDisconnected(u, node);
  }

  /** The loop of `toJSON` over `nodes`, on the arena `s`: round `i`
      writes `i` into the `index` of `nodes[i]`, then its object and its
      self-connection entry; the first node whose squash is `undefined`
      throws after `k` rounds, with those rounds written. */
  method Walk(s: Store, nodes: seq<nat>) returns (st: Store, k: nat, objects: Outcome<seq<NodeJSON>>, selfs: seq<ConnJSON>)
    requires StoreOk(s) && IdsBelow(nodes, |s.nodes|)
    ensures k <= |nodes| && st == IndexedUpTo(s, nodes, k)
    ensures objects == NodesJSON(s, nodes, |nodes|)
    ensures objects.Done? ==> k == |nodes| && selfs == SelfsJSON(s, nodes, |nodes|)
  {
    st := s;
    var found: seq<NodeJSON> := [];
    selfs := [];
    k := 0;
    while k < |nodes|
      invariant k <= |nodes| && st == IndexedUpTo(s, nodes, k)
      invariant NodesJSON(s, nodes, k) == Done(found)
      invariant selfs == SelfsJSON(s, nodes, k)
    {
      WalkRound(s, nodes, k);
      var n := nodes[k];
      st := SetIndex(st, n, k);
      var record := NodeToJSON(st.nodes[n]);
      if record.Throws? {
        assert s.nodes[nodes[k]].squash.None?;
        return st, k + 1, Throws, selfs;
      }
      found := found + [record.value];
      selfs := selfs + SelfJSON(st, n, k);
      k := k + 1;
    }
    objects := Done(found);
  }

  class Network {
    const graph: Graph
    var input: nat
    var output: nat
    /** Node indices, in activation order. */
    var nodes: seq<nat>
    var connections: seq<nat>
    var gates: seq<nat>
    var selfconns: seq<nat>
    var dropout: real
    /** `score`, `undefined` until evaluated. */
    var score: Option<real>

    function Fields(): NetworkFields
      reads this
    {
      NetworkFields(input, output, nodes, connections, gates, selfconns, dropout, score)
    }

    /** Every index the network holds points into the arena. */
    predicate Ready()
      reads this, graph
    {
      FieldsOk(graph.State(), Fields())
    }

    /** The arena only grows. */
    twostate predicate Grown()
      reads this, graph
    {
      old(|graph.nodes|) <= |graph.nodes| && old(|graph.conns|) <= |graph.conns|
    }

    /** `new Network(input, output)`: `input` input nodes, then `output`
        output nodes, every input connected to every output. `d` supplies
        the bias draws and `w` the initial weights, in call order. */
    constructor (g: Graph, input: nat, output: nat, d: nat -> real, w: nat -> real)
      requires g.Valid() && Uniform(d)
      modifies g
      ensures graph == g && Ready()
      ensures this.input == input && this.output == output && dropout == 0.0 && score == None
      ensures |nodes| == input + output && |g.nodes| == old(|g.nodes|) + input + output && old(|g.conns|) <= |g.conns|
      ensures forall k :: 0 <= k < |nodes| ==> nodes[k] == old(|g.nodes|) + k
      ensures forall k :: 0 <= k < |nodes| ==>
                g.nodes[nodes[k]].nodeType == (if k < input then "input" else "output")
                && g.nodes[nodes[k]].bias == (if k < input then 0.0 else d(k) * 0.2 - 0.1)
      ensures |connections| == input * output && gates == [] && selfconns == []
      ensures forall q :: 0 <= q < |connections| ==>
                g.conns[connections[q]].from in nodes[..input] && g.conns[connections[q]].to in nodes[input..]
                && g.conns[connections[q]].weight == w(q)
      ensures forall a, b :: 0 <= a < input <= b < input + output ==>
                ProjectsTo(g.State(), nodes[a], nodes[b])
    {
      graph := g;
      this.input := input;
      this.output := output;
      nodes := [];
      connections := [];
      gates := [];
      selfconns := [];
      dropout := 0.0;
      score := None;
      new;
      var base := |g.nodes|;
      CreateNodes(d, w);
      ConnectAll(base, d, w);
      WiredAll(g.State(), nodes, connections, base, input, output, d, w);
    }

    /** The first loop of the constructor: the input nodes, then the
        output nodes. */
    method CreateNodes(d: nat -> real, w: nat -> real)
      requires Ready() && Uniform(d) && nodes == [] && connections == [] && gates == [] && selfconns == []
      modifies this, graph
      ensures Ready() && Grown() && FreshNodes(graph.State(), nodes, old(|graph.nodes|), input, output, d)
      ensures Wired(graph.State(), nodes, connections, old(|graph.nodes|), input, output, 0, 0, w)
      ensures Fields() == old(Fields()).(nodes := nodes)
    {
      ghost var base := |graph.nodes|;
      var i := 0;
      while i < input + output
        invariant i <= input + output && Ready() && Grown() && Fields() == old(Fields()).(nodes := nodes)
        invariant Made(graph.State(), nodes, base, i, input, d)
      {
        ghost var s := graph.State();
        var id := graph.NewNode(Some(if i < input then "input" else "output"), d(i));
        MadeStep(s, graph.State(), nodes, base, i, input, d);
        nodes := nodes + [id];
        i := i + 1;
      }
      MadeAll(graph.State(), nodes, base, input, output, d, w);
    }

    /** The outer loop of the constructor: every input to every output. */
    method ConnectAll(base: nat, d: nat -> real, w: nat -> real)
      requires Ready() && FreshNodes(graph.State(), nodes, base, input, output, d)
      requires Wired(graph.State(), nodes, connections, base, input, output, 0, 0, w)
      modifies this, graph
      ensures Ready() && Grown() && FreshNodes(graph.State(), nodes, base, input, output, d)
      ensures Wired(graph.State(), nodes, connections, base, input, output, input, 0, w)
      ensures Fields() == old(Fields()).(connections := connections)
    {
      var i := 0;
      while i < input
        invariant i <= input && Ready() && Grown() && FreshNodes(graph.State(), nodes, base, input, output, d)
        invariant Wired(graph.State(), nodes, connections, base, input, output, i, 0, w)
        invariant Fields() == old(Fields()).(connections := connections)
      {
        ConnectRow(base, i, d, w);
        i := i + 1;
      }
    }

    /** The inner loop of the constructor: input `i` to every output. */
    method ConnectRow(base: nat, i: nat, d: nat -> real, w: nat -> real)
      requires Ready() && i < input && FreshNodes(graph.State(), nodes, base, input, output, d)
      requires Wired(graph.State(), nodes, connections, base, input, output, i, 0, w)
      modifies this, graph
      ensures Ready() && Grown() && FreshNodes(graph.State(), nodes, base, input, output, d)
      ensures Wired(graph.State(), nodes, connections, base, input, output, i + 1, 0, w)
      ensures Fields() == old(Fields()).(connections := connections)
    {
      var j := 0;
      while j < output
        invariant j <= output && Ready() && Grown() && FreshNodes(graph.State(), nodes, base, input, output, d)
        invariant Wired(graph.State(), nodes, connections, base, input, output, i, j, w)
        invariant Fields() == old(Fields()).(connections := connections)
      {
        ConnectStep(base, i, j, d, w);
        j := j + 1;
      }
      WiredNextRow(graph.State(), nodes, connections, base, input, output, i, w);
    }

    /** One connection of the constructor: input `i` to output `j`. */
    method ConnectStep(base: nat, i: nat, j: nat, d: nat -> real, w: nat -> real)
      requires Ready() && i < input && j < output && FreshNodes(graph.State(), nodes, base, input, output, d)
      requires Wired(graph.State(), nodes, connections, base, input, output, i, j, w)
      modifies this, graph
      ensures Ready() && Grown() && FreshNodes(graph.State(), nodes, base, input, output, d)
      ensures Wired(graph.State(), nodes, connections, base, input, output, i, j + 1, w)
      ensures Fields() == old(Fields()).(connections := connections)
    {
      ghost var s := graph.State();
      var from, to := nodes[i], nodes[input + j];
      WiredStep(s, nodes, connections, base, input, output, i, j, w, d);
      FreshStep(s, nodes, base, input, output, d, from, to, Some(w(|connections|)));
      var res := Connect(from, to, Some(w(|connections|)), 0.0);
    }

    /** `connect(from, to, weight)`: a self-connection is filed under
        `selfconns`, any other under `connections`; a throwing node connect
        leaves both as they were. */
    method Connect(from: nat, to: nat, weight: Option<real>, r: real) returns (res: Outcome<nat>)
      requires Ready() && from < |graph.nodes| && to < |graph.nodes| && 0.0 <= r < 1.0
      modifies this, graph
      ensures Ready() && Grown()
      ensures graph.State() == AfterConnect(old(graph.State()), from, to, weight, r)
      ensures res.Throws? <==> from != to && ProjectsTo(old(graph.State()), from, to)
      ensures res.Throws? ==> Fields() == old(Fields())
      ensures res.Done? && from == to ==> Fields() == old(Fields()).(selfconns := old(selfconns) + [res.value])
      ensures res.Done? && from != to ==> Fields() == old(Fields()).(connections := old(connections) + [res.value])
      ensures res.Done? ==> res.value < |graph.conns| && ProjectsTo(graph.State(), from, to)
      ensures res.Done? && from != to ==> res.value == old(|graph.conns|)
      ensures from == to ==> res == Done(old(graph.nodes[from].self))
    {
      res := graph.Connect(from, to, weight, r);
      if res.Done? {
        BelowGrow(nodes, old(|graph.nodes|), |graph.nodes|);
        BelowGrow(connections, old(|graph.conns|), |graph.conns|);
        BelowGrow(gates, old(|graph.conns|), |graph.conns|);
        BelowGrow(selfconns, old(|graph.conns|), |graph.conns|);
        if from != to {
          connections := connections + [res.value];
        } else {
          selfconns := selfconns + [res.value];
        }
      }
    }

    /** `ungate(connection)`. A connection missing from `gates` throws with
        nothing changed; an ungated one leaves `gates` and then throws. */
    method Ungate(c: nat) returns (thrown: bool)
      requires Ready() && c < |graph.conns|
      modifies this, graph
      ensures Ready() && |graph.nodes| == old(|graph.nodes|) && |graph.conns| == old(|graph.conns|)
      ensures Fields() == old(Fields()).(gates := gates)
      ensures thrown <==> NetUngate(old(graph.State()), old(gates), c).Throws?
      ensures !thrown ==> (graph.State(), gates) == NetUngate(old(graph.State()), old(gates), c).value
      ensures thrown ==> graph.State() == old(graph.State())
      ensures c !in old(gates) ==> gates == old(gates)
      ensures c in old(gates) ==> gates == SpliceAt(old(gates), IndexOf(old(gates), c))
    {
      var index := IndexOf(gates, c);
      if index == -1 {
        return true;
      }
      SpliceBelow(gates, index, |graph.conns|);
      gates := SpliceAt(gates, index);
      if graph.conns[c].gater.None? {
        return true;
      }
      graph.UngateStep(graph.conns[c].gater.value, c);
      thrown := false;
    }

    /** `gate(node, connection)`. */
    method Gate(node: nat, c: nat) returns (thrown: bool)
      requires Ready() && node < |graph.nodes| && c < |graph.conns|
      modifies this, graph
      ensures Ready() && |graph.nodes| == old(|graph.nodes|) && |graph.conns| == old(|graph.conns|)
      ensures Fields() == old(Fields()).(gates := gates)
      ensures thrown <==> NetGate(old(graph.State()), old(nodes), old(gates), node, c).Throws?
      ensures !thrown ==> (graph.State(), gates) == NetGate(old(graph.State()), old(nodes), old(gates), node, c).value
      ensures thrown ==> graph.State() == old(graph.State()) && gates == old(gates)
    {
      if node !in nodes {
        return true;
      }
      thrown := false;
      if graph.conns[c].gater.Some? {
        return;
      }
      AppendBelow(gates, c, |graph.conns|);
      graph.Gate(node, [c]);
      gates := gates + [c];
    }

    /** `disconnect(from, to)`. */
    method Disconnect(from: nat, to: nat) returns (thrown: bool)
      requires Ready() && from < |graph.nodes| && to < |graph.nodes|
      modifies this, graph
      ensures Ready() && |graph.nodes| == old(|graph.nodes|) && |graph.conns| == old(|graph.conns|)
      ensures Fields() == old(Fields()).(connections := connections, gates := gates, selfconns := selfconns)
      ensures thrown <==> NetDisconnect(old(graph.State()), old(Fields()), from, to).Throws?
      ensures !thrown ==> (graph.State(), Fields()) == NetDisconnect(old(graph.State()), old(Fields()), from, to).value
      ensures thrown ==> graph.State() == old(graph.State()) && Fields() == old(Fields())
    {
      thrown := Unlist(from, to);
      if !thrown {
        graph.Disconnect(from, to, false);
      }
    }

    /** The list half of `disconnect(from, to)`. */
    method Unlist(from: nat, to: nat) returns (thrown: bool)
      requires Ready()
      modifies this, graph
      ensures Ready() && |graph.nodes| == old(|graph.nodes|) && |graph.conns| == old(|graph.conns|)
      ensures Fields() == old(Fields()).(connections := connections, gates := gates, selfconns := selfconns)
      ensures thrown <==> NetUnlist(old(graph.State()), old(Fields()), from, to).Throws?
      ensures !thrown ==> (graph.State(), Fields()) == NetUnlist(old(graph.State()), old(Fields()), from, to).value
      ensures thrown ==> graph.State() == old(graph.State()) && Fields() == old(Fields())
    {
      var self := from == to;
      var list := Listed(Fields(), self);
      var i := FirstLink(graph.State(), list, from, to);
      thrown := false;
      if i == -1 {
        return;
      }
      var c := list[i];
      SpliceBelow(list, i, |graph.conns|);
      if graph.conns[c].gater.Some? {
        thrown := Ungate(c);
        if thrown {
          return;
        }
      }
      SetList(self, SpliceAt(list, i));
    }

    /** Replaces the list `disconnect` searches. */
    method SetList(self: bool, list: seq<nat>)
      requires Ready() && IdsBelow(list, |graph.conns|)
      modifies this
      ensures Ready() && Fields() == WithList(old(Fields()), self, list)
    {
      if self {
        selfconns := list;
      } else {
        connections := list;
      }
    }

    /** The input loop of `remove`: the node's incoming connections, last
        first. Each connection's gater other than `node` is kept when
        `keepGates`, its source is recorded and disconnected from `node`.
        Reading past the end of the list, which the disconnects shorten,
        throws as `undefined.gater` would. */
    method DropInputs(node: nat, keepGates: bool) returns (thrown: bool, gaters: seq<nat>, inputs: seq<nat>)
      requires Ready() && node < |graph.nodes|
      modifies this, graph
      ensures Ready() && |graph.nodes| == old(|graph.nodes|) && |graph.conns| == old(|graph.conns|)
      ensures Fields() == old(Fields()).(connections := connections, gates := gates, selfconns := selfconns)
      ensures IdsBelow(gaters, |graph.nodes|) && IdsBelow(inputs, |graph.nodes|)
      ensures node !in gaters
      ensures !keepGates ==> gaters == []
      ensures !thrown && InsLinked(old(graph.State()), node) ==>
                && inputs == Ends(old(graph.State()), old(graph.nodes[node].ins), true)
                && graph.nodes[node].ins == [] && graph.nodes[node].outs == old(graph.nodes[node].outs)
                && SameEnds(old(graph.State()), graph.State())
                && (OutsLinked(old(graph.State()), node) ==> OutsLinked(graph.State(), node))
      ensures GatesKept(old(graph.State()), old(Fields())) && InsLinked(old(graph.State()), node) ==>
                !thrown && GatesKept(graph.State(), Fields()) && forall g :: g in gaters ==> g in nodes
    {
      ghost var s0, f0, ins0 := graph.State(), Fields(), graph.nodes[node].ins;
      gaters, inputs := [], [];
      var i := |graph.nodes[node].ins| - 1;
      while 0 <= i
        invariant Ready() && |graph.nodes| == old(|graph.nodes|) && |graph.conns| == old(|graph.conns|)
        invariant Fields() == old(Fields()).(connections := connections, gates := gates, selfconns := selfconns)
        invariant IdsBelow(gaters, |graph.nodes|) && IdsBelow(inputs, |graph.nodes|)
        invariant node !in gaters
        invariant !keepGates ==> gaters == []
        invariant -1 <= i < |ins0| && InsDropped(s0, graph.State(), node, i, inputs)
        invariant GatesKept(s0, f0) && InsLinked(s0, node) ==>
                    GatesKept(graph.State(), Fields()) && forall g :: g in gaters ==> g in nodes
        decreases i + 1
      {
        var kept, end;
        thrown, kept, end := DropIn(node, i, keepGates, s0, inputs);
        JoinBelow(gaters, kept, |graph.nodes|);
        AppendBelow(inputs, end, |graph.nodes|);
        gaters, inputs := gaters + kept, inputs + [end];
        if thrown {
          return;
        }
        i := i - 1;
      }
      thrown := false;
      if InsLinked(s0, node) {
        InsDroppedAll(s0, graph.State(), node, inputs);
      }
    }

    /** Round `i` of the input loop of `remove`: reading past the end of the
        in-list, which the disconnects shorten, throws as `undefined.gater`
        would; otherwise `DropLink` on entry `i`. `s0` and `inputs` are the
        arena before the loop and the sources collected so far. */
    method DropIn(node: nat, i: nat, keepGates: bool, ghost s0: Store, ghost inputs: seq<nat>)
      returns (thrown: bool, kept: seq<nat>, end: nat)
      requires Ready() && node < |graph.nodes|
      requires StoreOk(s0) && node < |s0.nodes| && i < |s0.nodes[node].ins| && |graph.nodes| == |s0.nodes|
      requires InsDropped(s0, graph.State(), node, i, inputs)
      modifies this, graph
      ensures Ready() && |graph.nodes| == old(|graph.nodes|) && |graph.conns| == old(|graph.conns|)
      ensures Fields() == old(Fields()).(connections := connections, gates := gates, selfconns := selfconns)
      ensures i < old(|graph.nodes[node].ins|) ==> end == old(graph.conns[graph.nodes[node].ins[i]].from)
      ensures end < |graph.nodes| && IdsBelow(kept, |graph.nodes|) && node !in kept
      ensures !keepGates ==> kept == []
      ensures old(|graph.nodes[node].ins|) <= i ==> thrown
      ensures thrown ==> old(|graph.nodes[node].ins|) <= i || NetDisconnect(old(graph.State()), old(Fields()), end, node).Throws?
      ensures !thrown ==> InsDropped(s0, graph.State(), node, i - 1, inputs + [end])
      ensures GatesKept(old(graph.State()), old(Fields())) && InsLinked(s0, node) ==>
                !thrown && GatesKept(graph.State(), Fields()) && forall g :: g in kept ==> g in nodes
    {
      ghost var s, f := graph.State(), Fields();
      ghost var linked := InsLinked(s0, node);
      if linked {
        InsDroppedLast(s0, s, node, i, inputs);
      }
      if |graph.nodes[node].ins| <= i {
        return true, [], node;
      }
      if linked {
        DisconnectLastIn(s, f, node);
      }
      thrown, kept, end := DropLink(node, graph.nodes[node].ins[i], true, keepGates);
      if !thrown && linked {
        InsDroppedStep(s0, s, graph.State(), node, i, inputs);
      }
    }

    /** One round of the input (`incoming`) or output loop of `remove`:
        connection `c` is disconnected from `node`; `kept` is its gater when
        `keepGates` and the gater is not `node`, and `end` its other end. */
    method DropLink(node: nat, c: nat, incoming: bool, keepGates: bool) returns (thrown: bool, kept: seq<nat>, end: nat)
      requires Ready() && node < |graph.nodes| && c < |graph.conns|
      modifies this, graph
      ensures Ready() && |graph.nodes| == old(|graph.nodes|) && |graph.conns| == old(|graph.conns|)
      ensures Fields() == old(Fields()).(connections := connections, gates := gates, selfconns := selfconns)
      ensures end == if incoming then old(graph.conns[c].from) else old(graph.conns[c].to)
      ensures end < |graph.nodes| && IdsBelow(kept, |graph.nodes|)
      ensures kept == if keepGates && old(graph.conns[c].gater).Some? && old(graph.conns[c].gater).value != node
                      then [old(graph.conns[c].gater).value] else []
      ensures var r := NetDisconnect(old(graph.State()), old(Fields()), if incoming then end else node, if incoming then node else end);
              && (thrown <==> r.Throws?) && (!thrown ==> (graph.State(), Fields()) == r.value)
              && (thrown ==> graph.State() == old(graph.State()) && Fields() == old(Fields()))
      ensures GatesKept(old(graph.State()), old(Fields())) ==>
                !thrown && GatesKept(graph.State(), Fields()) && forall g :: g in kept ==> g in nodes
    {
      var conn := graph.conns[c];
      if GatesKept(graph.State(), Fields()) {
        NetDisconnectKeeps(graph.State(), Fields(), if incoming then conn.from else node, if incoming then node else conn.to);
      }
      kept := if keepGates && conn.gater.Some? && conn.gater.value != node then [conn.gater.value] else [];
      end := if incoming then conn.from else conn.to;
      if incoming {
        thrown := Disconnect(conn.from, node);
      } else {
        thrown := Disconnect(node, conn.to);
      }
    }

    /** The output loop of `remove`, the mirror image of the input loop. */
    method DropOutputs(node: nat, keepGates: bool) returns (thrown: bool, gaters: seq<nat>, outputs: seq<nat>)
      requires Ready() && node < |graph.nodes|
      modifies this, graph
      ensures Ready() && |graph.nodes| == old(|graph.nodes|) && |graph.conns| == old(|graph.conns|)
      ensures Fields() == old(Fields()).(connections := connections, gates := gates, selfconns := selfconns)
      ensures IdsBelow(gaters, |graph.nodes|) && IdsBelow(outputs, |graph.nodes|)
      ensures node !in gaters
      ensures !keepGates ==> gaters == []
      ensures !thrown && OutsLinked(old(graph.State()), node) ==>
                && outputs == Ends(old(graph.State()), old(graph.nodes[node].outs), false)
                && graph.nodes[node].outs == [] && graph.nodes[node].ins == old(graph.nodes[node].ins)
                && SameEnds(old(graph.State()), graph.State())
      ensures GatesKept(old(graph.State()), old(Fields())) && OutsLinked(old(graph.State()), node) ==>
                !thrown && GatesKept(graph.State(), Fields()) && forall g :: g in gaters ==> g in nodes
    {
      ghost var s0, f0, outs0 := graph.State(), Fields(), graph.nodes[node].outs;
      gaters, outputs := [], [];
      var i := |graph.nodes[node].outs| - 1;
      while 0 <= i
        invariant Ready() && |graph.nodes| == old(|graph.nodes|) && |graph.conns| == old(|graph.conns|)
        invariant Fields() == old(Fields()).(connections := connections, gates := gates, selfconns := selfconns)
        invariant IdsBelow(gaters, |graph.nodes|) && IdsBelow(outputs, |graph.nodes|)
        invariant node !in gaters
        invariant !keepGates ==> gaters == []
        invariant -1 <= i < |outs0| && OutsDropped(s0, graph.State(), node, i, outputs)
        invariant GatesKept(s0, f0) && OutsLinked(s0, node) ==>
                    GatesKept(graph.State(), Fields()) && forall g :: g in gaters ==> g in nodes
        decreases i + 1
      {
        var kept, end;
        thrown, kept, end := DropOut(node, i, keepGates, s0, outputs);
        JoinBelow(gaters, kept, |graph.nodes|);
        AppendBelow(outputs, end, |graph.nodes|);
        gaters, outputs := gaters + kept, outputs + [end];
        if thrown {
          return;
        }
        i := i - 1;
      }
      thrown := false;
      if OutsLinked(s0, node) {
        OutsDroppedAll(s0, graph.State(), node, outputs);
      }
    }

    /** Round `i` of the output loop of `remove`, the mirror image of
        `DropIn`. */
    method DropOut(node: nat, i: nat, keepGates: bool, ghost s0: Store, ghost outputs: seq<nat>)
      returns (thrown: bool, kept: seq<nat>, end: nat)
      requires Ready() && node < |graph.nodes|
      requires StoreOk(s0) && node < |s0.nodes| && i < |s0.nodes[node].outs| && |graph.nodes| == |s0.nodes|
      requires OutsDropped(s0, graph.State(), node, i, outputs)
      modifies this, graph
      ensures Ready() && |graph.nodes| == old(|graph.nodes|) && |graph.conns| == old(|graph.conns|)
      ensures Fields() == old(Fields()).(connections := connections, gates := gates, selfconns := selfconns)
      ensures i < old(|graph.nodes[node].outs|) ==> end == old(graph.conns[graph.nodes[node].outs[i]].to)
      ensures end < |graph.nodes| && IdsBelow(kept, |graph.nodes|) && node !in kept
      ensures !keepGates ==> kept == []
      ensures old(|graph.nodes[node].outs|) <= i ==> thrown
      ensures thrown ==> old(|graph.nodes[node].outs|) <= i || NetDisconnect(old(graph.State()), old(Fields()), node, end).Throws?
      ensures !thrown ==> OutsDropped(s0, graph.State(), node, i - 1, outputs + [end])
      ensures GatesKept(old(graph.State()), old(Fields())) && OutsLinked(s0, node) ==>
                !thrown && GatesKept(graph.State(), Fields()) && forall g :: g in kept ==> g in nodes
    {
      ghost var s, f := graph.State(), Fields();
      ghost var linked := OutsLinked(s0, node);
      if linked {
        OutsDroppedLast(s0, s, node, i, outputs);
      }
      if |graph.nodes[node].outs| <= i {
        return true, [], node;
      }
      if linked {
        DisconnectLastOut(s, f, node);
      }
      thrown, kept, end := DropLink(node, graph.nodes[node].outs[i], false, keepGates);
      if !thrown && linked {
        OutsDroppedStep(s0, s, graph.State(), node, i, outputs);
      }
    }

    /** The bridging loop of `remove`: every input is connected to every
        output it does not project to yet; the `k`-th connect draws `d(k)`
        for its weight. `made` lists the connections made, in order. */
    method Bridge(inputs: seq<nat>, outputs: seq<nat>, d: nat -> real) returns (made: seq<nat>)
      requires Ready() && Uniform(d) && IdsBelow(inputs, |graph.nodes|) && IdsBelow(outputs, |graph.nodes|)
      modifies this, graph
      ensures Ready() && Grown() && |graph.nodes| == old(|graph.nodes|)
      ensures Fields() == old(Fields()).(connections := connections, selfconns := selfconns)
      ensures IdsBelow(made, |graph.conns|) && |made| <= |inputs| * |outputs|
      ensures forall a, b :: 0 <= a < |inputs| && 0 <= b < |outputs| ==>
                ProjectsTo(graph.State(), inputs[a], outputs[b])
      ensures forall n :: 0 <= n < |graph.nodes| ==> graph.nodes[n].self == old(graph.nodes[n].self)
      ensures forall n :: 0 <= n < |graph.nodes| && n !in inputs ==> graph.nodes[n].outs == old(graph.nodes[n].outs)
      ensures forall n :: 0 <= n < |graph.nodes| && n !in outputs ==> graph.nodes[n].ins == old(graph.nodes[n].ins)
      ensures GatesKept(old(graph.State()), old(Fields())) ==> GatesKept(graph.State(), Fields())
    {
      made := [];
      var i := 0;
      while i < |inputs|
        invariant i <= |inputs| && Ready() && Grown() && |graph.nodes| == old(|graph.nodes|)
        invariant forall n :: 0 <= n < |graph.nodes| ==> graph.nodes[n].self == old(graph.nodes[n].self)
        invariant forall n :: 0 <= n < |graph.nodes| && n !in inputs ==> graph.nodes[n].outs == old(graph.nodes[n].outs)
        invariant forall n :: 0 <= n < |graph.nodes| && n !in outputs ==> graph.nodes[n].ins == old(graph.nodes[n].ins)
        invariant GatesKept(old(graph.State()), old(Fields())) ==> GatesKept(graph.State(), Fields())
        invariant Fields() == old(Fields()).(connections := connections, selfconns := selfconns)
        invariant IdsBelow(made, |graph.conns|) && |made| <= i * |outputs|
        invariant Bridged(graph.State(), inputs, outputs, i, 0)
      {
        made := BridgeRow(inputs, outputs, i, d, made);
        BridgedRow(graph.State(), inputs, outputs, i);
        i := i + 1;
      }
    }

    /** The inner loop of the bridging: input `i` to every output. */
    method BridgeRow(inputs: seq<nat>, outputs: seq<nat>, i: nat, d: nat -> real, made0: seq<nat>)
      returns (made: seq<nat>)
      requires Ready() && Uniform(d) && IdsBelow(inputs, |graph.nodes|) && IdsBelow(outputs, |graph.nodes|)
      requires i < |inputs| && IdsBelow(made0, |graph.conns|) && Bridged(graph.State(), inputs, outputs, i, 0)
      modifies this, graph
      ensures Ready() && Grown() && |graph.nodes| == old(|graph.nodes|)
      ensures Fields() == old(Fields()).(connections := connections, selfconns := selfconns)
      ensures IdsBelow(made, |graph.conns|) && |made| <= |made0| + |outputs|
      ensures Bridged(graph.State(), inputs, outputs, i, |outputs|)
      ensures forall n :: 0 <= n < |graph.nodes| ==> graph.nodes[n].self == old(graph.nodes[n].self)
      ensures forall n :: 0 <= n < |graph.nodes| && n != inputs[i] ==> graph.nodes[n].outs == old(graph.nodes[n].outs)
      ensures forall n :: 0 <= n < |graph.nodes| && n !in outputs ==> graph.nodes[n].ins == old(graph.nodes[n].ins)
      ensures GatesKept(old(graph.State()), old(Fields())) ==> GatesKept(graph.State(), Fields())
    {
      made := made0;
      var j := 0;
      while j < |outputs|
        invariant j <= |outputs| && Ready() && Grown() && |graph.nodes| == old(|graph.nodes|)
        invariant forall n :: 0 <= n < |graph.nodes| ==> graph.nodes[n].self == old(graph.nodes[n].self)
        invariant forall n :: 0 <= n < |graph.nodes| && n != inputs[i] ==> graph.nodes[n].outs == old(graph.nodes[n].outs)
        invariant forall n :: 0 <= n < |graph.nodes| && n !in outputs ==> graph.nodes[n].ins == old(graph.nodes[n].ins)
        invariant GatesKept(old(graph.State()), old(Fields())) ==> GatesKept(graph.State(), Fields())
        invariant Fields() == old(Fields()).(connections := connections, selfconns := selfconns)
        invariant IdsBelow(made, |graph.conns|) && |made| <= |made0| + j
        invariant Bridged(graph.State(), inputs, outputs, i, j)
      {
        made := BridgeCell(inputs, outputs, i, j, d, made);
        j := j + 1;
      }
    }

    /** One step of the bridging: input `i` is connected to output `j`
        unless it projects to it already. */
    method BridgeCell(inputs: seq<nat>, outputs: seq<nat>, i: nat, j: nat, d: nat -> real, made0: seq<nat>)
      returns (made: seq<nat>)
      requires Ready() && Uniform(d) && IdsBelow(inputs, |graph.nodes|) && IdsBelow(outputs, |graph.nodes|)
      requires i < |inputs| && j < |outputs| && IdsBelow(made0, |graph.conns|) && Bridged(graph.State(), inputs, outputs, i, j)
      modifies this, graph
      ensures Ready() && Grown() && |graph.nodes| == old(|graph.nodes|)
      ensures Fields() == old(Fields()).(connections := connections, selfconns := selfconns)
      ensures IdsBelow(made, |graph.conns|) && |made| <= |made0| + 1
      ensures Bridged(graph.State(), inputs, outputs, i, j + 1)
      ensures forall n :: 0 <= n < |graph.nodes| ==> graph.nodes[n].self == old(graph.nodes[n].self)
      ensures forall n :: 0 <= n < |graph.nodes| && n != inputs[i] ==> graph.nodes[n].outs == old(graph.nodes[n].outs)
      ensures forall n :: 0 <= n < |graph.nodes| && n != outputs[j] ==> graph.nodes[n].ins == old(graph.nodes[n].ins)
      ensures GatesKept(old(graph.State()), old(Fields())) ==> GatesKept(graph.State(), Fields())
    {
      made := made0;
      var projecting := graph.IsProjectingTo(inputs[i], outputs[j]);
      if !projecting {
        ghost var s, f := graph.State(), Fields();
        AfterConnectFrame(s, inputs[i], outputs[j], None, d(|made|));
        if GatesKept(s, f) {
          AfterConnectKeeps(s, f, inputs[i], outputs[j], None, d(|made|));
        }
        var res := Connect(inputs[i], outputs[j], None, d(|made|));
        BridgedKept(s, inputs, outputs, i, j, inputs[i], outputs[j], None, d(|made|));
        BelowGrow(made, |s.conns|, |graph.conns|);
        AppendBelow(made, res.value, |graph.conns|);
        made := made + [res.value];
      }
      BridgedNext(graph.State(), inputs, outputs, i, j);
    }

    /** The gater loop of `remove`: while connections made remain, the next
        kept gater gates one of them, the `k`-th picked by `e(k)`, and that
        connection leaves the pool. */
    method Regate(gaters: seq<nat>, made: seq<nat>, e: nat -> real) returns (thrown: bool)
      requires Ready() && Uniform(e) && IdsBelow(gaters, |graph.nodes|) && IdsBelow(made, |graph.conns|)
      modifies this, graph
      ensures Ready() && |graph.nodes| == old(|graph.nodes|) && |graph.conns| == old(|graph.conns|)
      ensures Fields() == old(Fields()).(gates := gates)
      ensures |old(gates)| <= |gates| <= |old(gates)| + |gaters| && gates[..|old(gates)|] == old(gates)
      ensures forall k :: |old(gates)| <= k < |gates| ==> gates[k] in made
      ensures SameWiring(old(graph.State()), graph.State())
      ensures GatesKept(old(graph.State()), old(Fields())) && (forall g :: g in gaters ==> g in nodes) ==>
                !thrown && GatesKept(graph.State(), Fields())
    {
      ghost var kept := GatesKept(graph.State(), Fields()) && forall g :: g in gaters ==> g in nodes;
      var pool := made;
      var k := 0;
      thrown := false;
      while k < |gaters| && pool != []
        invariant k <= |gaters| && Ready() && |graph.nodes| == old(|graph.nodes|) && |graph.conns| == old(|graph.conns|)
        invariant Fields() == old(Fields()).(gates := gates)
        invariant IdsBelow(pool, |graph.conns|) && forall x :: x in pool ==> x in made
        invariant |old(gates)| <= |gates| <= |old(gates)| + k && gates[..|old(gates)|] == old(gates)
        invariant forall q :: |old(gates)| <= q < |gates| ==> gates[q] in made
        invariant SameWiring(old(graph.State()), graph.State())
        invariant kept ==> GatesKept(graph.State(), Fields()) && forall g :: g in gaters ==> g in nodes
      {
        var j := Pick(e(k), |pool|);
        ghost var before, s := gates, graph.State();
        assert kept ==> gaters[k] in nodes;
        thrown := RegateOne(gaters[k], pool[j]);
        if thrown {
          return;
        }
        SameWiringTrans(old(graph.State()), s, graph.State());
        assert gates[..|old(gates)|] == before[..|old(gates)|];
        SpliceBelow(pool, j, |graph.conns|);
        pool := SpliceAt(pool, j);
        k := k + 1;
      }
    }

    /** One step of the gater loop: `gate(c)` by gater `g`, which leaves
        the wiring alone and appends `c` to `gates` at most. */
    method RegateOne(g: nat, c: nat) returns (thrown: bool)
      requires Ready() && g < |graph.nodes| && c < |graph.conns|
      modifies this, graph
      ensures Ready() && |graph.nodes| == old(|graph.nodes|) && |graph.conns| == old(|graph.conns|)
      ensures Fields() == old(Fields()).(gates := gates)
      ensures !thrown ==> (gates == old(gates) || gates == old(gates) + [c]) && SameWiring(old(graph.State()), graph.State())
      ensures thrown ==> graph.State() == old(graph.State()) && gates == old(gates)
      ensures GatesKept(old(graph.State()), old(Fields())) && g in old(nodes) ==> !thrown && GatesKept(graph.State(), Fields())
    {
      ghost var s := graph.State();
      NetGateWiring(s, nodes, gates, g, c);
      if GatesKept(s, Fields()) && g in nodes {
        NetGateKeeps(s, Fields(), g, c);
      }
      thrown := Gate(g, c);
    }

    /** The loop over the node's gated connections, run over a copy of the
        list (see `UngateLive` for the loop as written). */
    method UngateAll(node: nat) returns (thrown: bool)
      requires Ready() && node < |graph.nodes|
      modifies this, graph
      ensures Ready() && |graph.nodes| == old(|graph.nodes|) && |graph.conns| == old(|graph.conns|)
      ensures Fields() == old(Fields()).(gates := gates)
      ensures thrown <==> UngateCopy(old(graph.State()), old(gates), old(graph.nodes[node].gated)).Throws?
      ensures !thrown ==> (graph.State(), gates) == UngateCopy(old(graph.State()), old(gates), old(graph.nodes[node].gated)).value
      ensures !thrown ==> SameWiring(old(graph.State()), graph.State())
    {
      var cs := graph.nodes[node].gated;
      var i := 0;
      while i < |cs|
        invariant i <= |cs| && Ready() && |graph.nodes| == old(|graph.nodes|) && |graph.conns| == old(|graph.conns|)
        invariant Fields() == old(Fields()).(gates := gates)
        invariant UngateCopy(old(graph.State()), old(gates), cs) == UngateCopy(graph.State(), gates, cs[i..])
      {
        assert cs[i..][1..] == cs[i + 1..];
        thrown := Ungate(cs[i]);
        if thrown {
          return;
        }
        i := i + 1;
      }
      thrown := false;
      UngateCopyWiring(old(graph.State()), old(gates), cs);
    }

    /** `remove(node)`: a node outside the network throws. Otherwise the
        node is disconnected from itself, from its sources and from its
        targets; every former source is connected to every former target
        (`Bridge`), the kept gaters gate connections so made (`Regate`), the
        node's gated connections are ungated, and the node leaves `nodes`.
        `d` and `e` supply the weight and gater draws. */
    method Remove(node: nat, keepGates: bool, d: nat -> real, e: nat -> real) returns (thrown: bool)
      requires Ready() && node < |graph.nodes| && Uniform(d) && Uniform(e)
      modifies this, graph
      ensures Ready() && Grown() && |graph.nodes| == old(|graph.nodes|)
      ensures node !in old(nodes) ==> thrown && Fields() == old(Fields()) && graph.State() == old(graph.State())
      ensures !thrown ==> node in old(nodes)
      ensures !thrown ==> Fields() == old(Fields()).(nodes := SpliceAt(old(nodes), IndexOf(old(nodes), node)),
                                                     connections := connections, gates := gates, selfconns := selfconns)
      ensures !thrown ==> multiset(nodes) == multiset(old(nodes)) - multiset{node}
      ensures thrown ==> Fields() == old(Fields()).(connections := connections, gates := gates, selfconns := selfconns)
      ensures !thrown && InsLinked(old(graph.State()), node) && OutsLinked(old(graph.State()), node) ==>
                Bridges(old(graph.State()), graph.State(), node)
      ensures !thrown ==> graph.conns[graph.nodes[node].self].weight == 0.0
      ensures && GatesKept(old(graph.State()), old(Fields())) && node in old(nodes)
              && InsLinked(old(graph.State()), node) && OutsLinked(old(graph.State()), node) ==>
                && !thrown && GatesKept(graph.State(), Fields())
                && graph.nodes[node].ins == [] && graph.nodes[node].outs == [] && graph.nodes[node].gated == []
    {
      var index := IndexOf(nodes, node);
      if index == -1 {
        return true;
      }
      thrown := Detach(node, keepGates, d, e);
      if thrown {
        return;
      }
      if GatesKept(graph.State(), Fields()) && graph.nodes[node].gated == [] {
        RemovedKeeps(graph.State(), Fields(), node);
      }
      RemoveFirst(nodes, node);
      SpliceBelow(nodes, index, |graph.nodes|);
      nodes := SpliceAt(nodes, index);
    }

    /** The first half of `remove`: the node is disconnected from itself,
        from its sources and from its targets, collecting the former
        sources and targets and, when `keepGates`, the gaters of the
        dropped connections. */
    method Unwire(node: nat, keepGates: bool) returns (thrown: bool, gaters: seq<nat>, inputs: seq<nat>, outputs: seq<nat>)
      requires Ready() && node < |graph.nodes|
      modifies this, graph
      ensures Ready() && |graph.nodes| == old(|graph.nodes|) && |graph.conns| == old(|graph.conns|)
      ensures Fields() == old(Fields()).(connections := connections, gates := gates, selfconns := selfconns)
      ensures IdsBelow(gaters, |graph.nodes|) && IdsBelow(inputs, |graph.nodes|) && IdsBelow(outputs, |graph.nodes|)
      ensures node !in gaters
      ensures !thrown && InsLinked(old(graph.State()), node) && OutsLinked(old(graph.State()), node) ==>
                && inputs == Ends(old(graph.State()), old(graph.nodes[node].ins), true)
                && outputs == Ends(old(graph.State()), old(graph.nodes[node].outs), false)
                && SameEnds(old(graph.State()), graph.State())
      ensures GatesKept(old(graph.State()), old(Fields())) && InsLinked(old(graph.State()), node) && OutsLinked(old(graph.State()), node) ==>
                && !thrown && GatesKept(graph.State(), Fields()) && (forall g :: g in gaters ==> g in nodes)
                && graph.nodes[node].ins == [] && graph.nodes[node].outs == []
    {
      ghost var s0 := graph.State();
      ghost var linked := InsLinked(s0, node) && OutsLinked(s0, node);
      if linked {
        SelfDisconnectLinks(s0, Fields(), node);
      }
      if GatesKept(s0, Fields()) {
        NetDisconnectKeeps(s0, Fields(), node, node);
      }
      gaters, inputs, outputs := [], [], [];
      thrown := Disconnect(node, node);
      if thrown {
        return;
      }
      ghost var s1 := graph.State();
      if linked {
        LinkedKept(s0, s1, node);
        EndsSame(s0, s1, s0.nodes[node].ins, true);
      }
      var gatersIn, gatersOut;
      thrown, gatersIn, inputs := DropInputs(node, keepGates);
      if thrown {
        return;
      }
      ghost var s2 := graph.State();
      thrown, gatersOut, outputs := DropOutputs(node, keepGates);
      if thrown {
        return;
      }
      if linked {
        SameEndsTrans(s0, s1, s2);
        SameEndsTrans(s0, s2, graph.State());
        EndsSame(s0, s2, s0.nodes[node].outs, false);
      }
      JoinBelow(gatersIn, gatersOut, |graph.nodes|);
      gaters := gatersIn + gatersOut;
    }

    /** Everything `remove` does between finding the node and dropping it
        from `nodes`. */
    method Detach(node: nat, keepGates: bool, d: nat -> real, e: nat -> real) returns (thrown: bool)
      requires Ready() && node < |graph.nodes| && Uniform(d) && Uniform(e)
      modifies this, graph
      ensures Ready() && Grown() && |graph.nodes| == old(|graph.nodes|)
      ensures Fields() == old(Fields()).(connections := connections, gates := gates, selfconns := selfconns)
      ensures !thrown && InsLinked(old(graph.State()), node) && OutsLinked(old(graph.State()), node) ==>
                Bridges(old(graph.State()), graph.State(), node)
      ensures !thrown ==> graph.conns[graph.nodes[node].self].weight == 0.0
      ensures GatesKept(old(graph.State()), old(Fields())) && InsLinked(old(graph.State()), node) && OutsLinked(old(graph.State()), node) ==>
                && !thrown && GatesKept(graph.State(), Fields())
                && graph.nodes[node].ins == [] && graph.nodes[node].outs == [] && graph.nodes[node].gated == []
    {
      ghost var s0 := graph.State();
      ghost var kept := GatesKept(s0, Fields()) && InsLinked(s0, node) && OutsLinked(s0, node);
      if kept {
        EndsAvoid(s0, node);
      }
      var gaters, inputs, outputs;
      thrown, gaters, inputs, outputs := Unwire(node, keepGates);
      if thrown {
        return;
      }
      ghost var s3 := graph.State();
      var made := Bridge(inputs, outputs, d);
      ghost var s4 := graph.State();
      thrown := Regate(gaters, made, e);
      if thrown {
        return;
      }
      ghost var s5, s6;
      s5 := graph.State();
      thrown, s6 := Release(node);
      if !thrown && InsLinked(s0, node) && OutsLinked(s0, node) {
        SameWiringTrans(s4, s5, s6);
        DetachBridges(s0, s3, s4, s6, graph.State(), node, inputs, outputs);
      }
    }

    /** The tail of `remove`: the node's gated connections are ungated
        (`s6`) and its own link is dropped. */
    method Release(node: nat) returns (thrown: bool, ghost s6: Store)
      requires Ready() && node < |graph.nodes|
      modifies this, graph
      ensures Ready() && |graph.nodes| == old(|graph.nodes|) && |graph.conns| == old(|graph.conns|)
      ensures Fields() == old(Fields()).(connections := connections, gates := gates, selfconns := selfconns)
      ensures !thrown ==> && StoreOk(s6) && SameWiring(old(graph.State()), s6) && KeepsApart(s6, graph.State(), node)
                          && graph.conns[graph.nodes[node].self].weight == 0.0
      ensures GatesKept(old(graph.State()), old(Fields())) ==>
                && !thrown && GatesKept(graph.State(), Fields()) && graph.nodes[node].gated == []
                && graph.nodes[node].ins == old(graph.nodes[node].ins) && graph.nodes[node].outs == old(graph.nodes[node].outs)
    {
      if GatesKept(graph.State(), Fields()) {
        UngateAllEmpties(graph.State(), Fields(), node);
      }
      s6 := graph.State();
      thrown := UngateAll(node);
      if thrown {
        return;
      }
      s6 := graph.State();
      thrown := Unlink(node);
    }

    /** The last step of `remove`, `disconnect(node, node)`: the projection
        of every node whose self-connection is not the node's survives. */
    method Unlink(node: nat) returns (thrown: bool)
      requires Ready() && node < |graph.nodes|
      modifies this, graph
      ensures Ready() && |graph.nodes| == old(|graph.nodes|) && |graph.conns| == old(|graph.conns|)
      ensures Fields() == old(Fields()).(connections := connections, gates := gates, selfconns := selfconns)
      ensures !thrown ==> KeepsApart(old(graph.State()), graph.State(), node)
      ensures !thrown ==> graph.conns[graph.nodes[node].self].weight == 0.0
      ensures GatesKept(old(graph.State()), old(Fields())) && old(graph.nodes[node].gated) == [] ==>
                && !thrown && GatesKept(graph.State(), Fields()) && graph.nodes[node].gated == []
                && graph.nodes[node].ins == old(graph.nodes[node].ins) && graph.nodes[node].outs == old(graph.nodes[node].outs)
    {
      ghost var s, f := graph.State(), Fields();
      if GatesKept(s, f) && s.nodes[node].gated == [] {
        SelfUnlinkClears(s, f, node);
      }
      thrown := Disconnect(node, node);
      if !thrown {
        SelfDisconnectKeepsAll(s, f, node);
        SelfUnlinkZero(s, f, node);
      }
    }

    // -------------------------------------------------------------------
    // The structural mutation operators

    /** The candidate loops of `addConnMutation`: every forward pair whose
        source does not project to its target, in loop order. */
    method ForwardPairs() returns (available: seq<(nat, nat)>)
      requires Ready()
      ensures available == ForwardFrom(graph.State(), nodes, input, output, 0, Max(1, input))
    {
      ghost var s := graph.State();
      available := [];
      var i: nat := 0;
      while i < |nodes| - output
        invariant available + ForwardFrom(s, nodes, input, output, i, Max(i + 1, input))
                  == ForwardFrom(s, nodes, input, output, 0, Max(1, input))
        decreases |nodes| - i
      {
        var row := ForwardRow(i);
        available := available + row;
        i := i + 1;
      }
    }

    /** One pass of `addConnMutation`'s inner loop, for source position `i`. */
    method ForwardRow(i: nat) returns (row: seq<(nat, nat)>)
      requires Ready() && i < |nodes| - output
      ensures row + ForwardFrom(graph.State(), nodes, input, output, i + 1, Max(i + 2, input))
              == ForwardFrom(graph.State(), nodes, input, output, i, Max(i + 1, input))
    {
      ghost var s := graph.State();
      var ns := nodes;
      row := [];
      var j: nat := Max(i + 1, input);
      while j < |ns|
        invariant Max(i + 1, input) <= j
        invariant row + ForwardFrom(s, ns, input, output, i, j) == ForwardFrom(s, ns, input, output, i, Max(i + 1, input))
        decreases |ns| - j
      {
        var projecting := graph.IsProjectingTo(ns[i], ns[j]);
        var step := if projecting then [] else [(ns[i], ns[j])];
        ForwardStep(s, ns, input, output, i, j, projecting);
        Advance(row, step, ForwardFrom(s, ns, input, output, i, j + 1), ForwardFrom(s, ns, input, output, i, Max(i + 1, input)));
        row := row + step;
        j := j + 1;
      }
      ForwardRowEnd(s, ns, input, output, i, j);
    }

    /** The candidate loops of `addBackConnMutation`: every backward pair
        whose source does not project to its target, in loop order. */
    method BackwardPairs() returns (available: seq<(nat, nat)>)
      requires Ready()
      ensures available == BackwardFrom(graph.State(), nodes, input, input, input)
    {
      ghost var s := graph.State();
      available := [];
      var i: nat := input;
      while i < |nodes|
        invariant input <= i
        invariant available + BackwardFrom(s, nodes, input, i, input) == BackwardFrom(s, nodes, input, input, input)
        decreases |nodes| - i
      {
        var row := BackwardRow(i);
        available := available + row;
        i := i + 1;
      }
    }

    /** One pass of `addBackConnMutation`'s inner loop, for source position
        `i`. */
    method BackwardRow(i: nat) returns (row: seq<(nat, nat)>)
      requires Ready() && input <= i < |nodes|
      ensures row + BackwardFrom(graph.State(), nodes, input, i + 1, input) == BackwardFrom(graph.State(), nodes, input, i, input)
    {
      ghost var s := graph.State();
      var ns := nodes;
      row := [];
      var j: nat := input;
      while j < i
        invariant input <= j
        invariant row + BackwardFrom(s, ns, input, i, j) == BackwardFrom(s, ns, input, i, input)
        decreases i - j
      {
        var projecting := graph.IsProjectingTo(ns[i], ns[j]);
        var step := if projecting then [] else [(ns[i], ns[j])];
        BackwardStep(s, ns, input, i, j, projecting);
        Advance(row, step, BackwardFrom(s, ns, input, i, j + 1), BackwardFrom(s, ns, input, i, input));
        row := row + step;
        j := j + 1;
      }
      BackwardRowEnd(s, ns, input, i, j);
    }

    /** `addConnMutation`: with no candidate pair nothing changes; otherwise
        the pair drawn by `r` is connected, with weight draw `w`. The pair
        never projects already, so the connect never throws. */
    method AddConn(r: real, w: real)
      requires Ready() && 0.0 <= r < 1.0 && 0.0 <= w < 1.0
      modifies this, graph
      ensures Ready() && Grown()
      ensures Fields() == old(Fields()).(connections := connections, selfconns := selfconns)
      ensures var offered := old(ForwardFrom(graph.State(), nodes, input, output, 0, Max(1, input)));
              offered == [] ==> Fields() == old(Fields()) && graph.State() == old(graph.State())
      ensures var offered := old(ForwardFrom(graph.State(), nodes, input, output, 0, Max(1, input)));
              offered != [] ==>
                var p := offered[Pick(r, |offered|)];
                && p.0 < old(|graph.nodes|) && p.1 < old(|graph.nodes|)
                && graph.State() == AfterConnect(old(graph.State()), p.0, p.1, None, w)
                && ProjectsTo(graph.State(), p.0, p.1)
                && (p.0 != p.1 ==> connections == old(connections) + [old(|graph.conns|)])
    {
      var available := ForwardPairs();
      if available == [] {
        return;
      }
      var p := available[Pick(r, |available|)];
      ForwardSound(graph.State(), nodes, input, output, 0, Max(1, input), p);
      var res := Connect(p.0, p.1, None, w);
    }

    /** `addBackConnMutation`: as `AddConn` over the backward pairs. */
    method AddBackConn(r: real, w: real)
      requires Ready() && 0.0 <= r < 1.0 && 0.0 <= w < 1.0
      modifies this, graph
      ensures Ready() && Grown()
      ensures Fields() == old(Fields()).(connections := connections, selfconns := selfconns)
      ensures var offered := old(BackwardFrom(graph.State(), nodes, input, input, input));
              offered == [] ==> Fields() == old(Fields()) && graph.State() == old(graph.State())
      ensures var offered := old(BackwardFrom(graph.State(), nodes, input, input, input));
              offered != [] ==>
                var p := offered[Pick(r, |offered|)];
                && p.0 < old(|graph.nodes|) && p.1 < old(|graph.nodes|)
                && graph.State() == AfterConnect(old(graph.State()), p.0, p.1, None, w)
                && ProjectsTo(graph.State(), p.0, p.1)
                && (p.0 != p.1 ==> connections == old(connections) + [old(|graph.conns|)])
    {
      var available := BackwardPairs();
      if available == [] {
        return;
      }
      var p := available[Pick(r, |available|)];
      BackwardSound(graph.State(), nodes, input, input, input, p);
      var res := Connect(p.0, p.1, None, w);
    }

    /** `subConnMutation` (`forward`) and `subBackConnMutation`: with no
        droppable connection nothing changes; otherwise the one drawn by
        `r` is disconnected. */
    method SubConn(forward: bool, r: real) returns (thrown: bool)
      requires Ready() && 0.0 <= r < 1.0
      modifies this, graph
      ensures Ready() && |graph.nodes| == old(|graph.nodes|) && |graph.conns| == old(|graph.conns|)
      ensures input == old(input) && output == old(output)
      ensures var possible := old(DroppableIn(graph.State(), nodes, connections, forward));
              possible == [] ==> !thrown && Fields() == old(Fields()) && graph.State() == old(graph.State())
      ensures var possible := old(DroppableIn(graph.State(), nodes, connections, forward));
              possible != [] ==>
                var c := possible[Pick(r, |possible|)];
                && c in old(connections) && old(Droppable(graph.State(), nodes, c, forward))
                && var out := old(NetDisconnect(graph.State(), Fields(), graph.conns[c].from, graph.conns[c].to));
                   (thrown <==> out.Throws?) && (!thrown ==> (graph.State(), Fields()) == out.value)
    {
      var possible := DroppableIn(graph.State(), nodes, connections, forward);
      DroppableInExact(graph.State(), nodes, connections, forward);
      if possible == [] {
        return false;
      }
      var c := possible[Pick(r, |possible|)];
      assert ConnOk(graph.conns[c], |graph.nodes|);
      thrown := Disconnect(graph.conns[c].from, graph.conns[c].to);
    }

    /** `subSelfConnMutation`: with no self-connection nothing changes;
        otherwise the one drawn by `r` is disconnected. */
    method SubSelfConn(r: real) returns (thrown: bool)
      requires Ready() && 0.0 <= r < 1.0
      modifies this, graph
      ensures Ready() && |graph.nodes| == old(|graph.nodes|) && |graph.conns| == old(|graph.conns|)
      ensures input == old(input) && output == old(output)
      ensures old(selfconns) == [] ==> !thrown && Fields() == old(Fields()) && graph.State() == old(graph.State())
      ensures old(selfconns) != [] ==>
                var c := old(selfconns)[Pick(r, old(|selfconns|))];
                var out := old(NetDisconnect(graph.State(), Fields(), graph.conns[c].from, graph.conns[c].to));
                (thrown <==> out.Throws?) && (!thrown ==> (graph.State(), Fields()) == out.value)
    {
      if selfconns == [] {
        return false;
      }
      var c := selfconns[Pick(r, |selfconns|)];
      assert ConnOk(graph.conns[c], |graph.nodes|);
      thrown := Disconnect(graph.conns[c].from, graph.conns[c].to);
    }

    /** `modWeightMutation`: the connection or self-connection drawn by `r1`
        has its weight shifted by `r2 * (max - min) + min`. With no
        connection at all, `undefined.weight` throws. */
    method ModWeight(cat: Catalogue, r1: real, r2: real) returns (thrown: bool)
      requires Ready() && 0.0 <= r1 < 1.0 && 0.0 <= r2 < 1.0
      modifies graph
      ensures Ready() && graph.nodes == old(graph.nodes) && |graph.conns| == old(|graph.conns|)
      ensures thrown <==> old(connections + selfconns) == []
      ensures thrown ==> graph.conns == old(graph.conns)
      ensures !thrown ==>
                var all := old(connections + selfconns);
                var c := all[Pick(r1, |all|)];
                var shift := r2 * (cat.weightMax - cat.weightMin) + cat.weightMin;
                graph.conns == old(graph.conns)[c := old(graph.conns[c]).(weight := old(graph.conns[c].weight) + shift)]
    {
      var all := connections + selfconns;
      if all == [] {
        return true;
      }
      assert IdsBelow(all, |graph.conns|) by {
        assert forall k :: 0 <= k < |all| ==> all[k] == if k < |connections| then connections[k] else selfconns[k - |connections|];
      }
      var c := all[Pick(r1, |all|)];
      var shift := r2 * (cat.weightMax - cat.weightMin) + cat.weightMin;
      SetConnOk(graph.State(), c, graph.conns[c].(weight := graph.conns[c].weight + shift));
      graph.conns := graph.conns[c := graph.conns[c].(weight := graph.conns[c].weight + shift)];
      thrown := false;
    }

    /** `modBiasMutation`: the node at the position `r1` draws from
        `[input, |nodes|)` has its bias shifted by `r2`'s draw. A position
        past the end (no node beyond the inputs) reads `undefined` and
        throws. */
    method ModBias(cat: Catalogue, r1: real, r2: real) returns (thrown: bool)
      requires Ready() && 0.0 <= r1 < 1.0 && 0.0 <= r2 < 1.0
      modifies graph
      ensures Ready() && graph.conns == old(graph.conns) && |graph.nodes| == old(|graph.nodes|)
      ensures thrown <==> |nodes| <= Drawn(r1, |nodes| - input, input)
      ensures thrown ==> graph.nodes == old(graph.nodes)
      ensures !thrown ==>
                var index := Drawn(r1, |nodes| - input, input);
                var n := nodes[index];
                && input <= index
                && graph.nodes == old(graph.nodes)[n := old(graph.nodes[n]).(bias := old(graph.nodes[n].bias) + (r2 * (cat.biasMax - cat.biasMin) + cat.biasMin))]
    {
      var index := Drawn(r1, |nodes| - input, input);
      if |nodes| <= index {
        return true;
      }
      thrown := graph.Mutate(nodes[index], Catalogued(MOD_BIAS), cat, r2);
    }

    /** The span `modActivationMutation` and `swapNodesMutation` draw
        from: the nodes after the inputs, less the outputs unless
        `withOutputs`. */
    function Mutable(withOutputs: bool): int
      reads this
    {
      |nodes| - (if withOutputs then 0 else output) - input
    }

    /** `modActivationMutation`: the node at the position `r1` draws from
        the hidden nodes, and the outputs too when `cat.activationOutput`,
        switches squash by `r2`'s draw. Without such a node nothing
        changes; a position past the end throws. */
    method ModActivation(cat: Catalogue, r1: real, r2: real) returns (thrown: bool)
      requires Ready() && 0.0 <= r1 < 1.0 && 0.0 <= r2 < 1.0
      modifies graph
      ensures Ready() && graph.conns == old(graph.conns) && |graph.nodes| == old(|graph.nodes|)
      ensures !cat.activationOutput && input + output == |nodes| ==> !thrown && graph.nodes == old(graph.nodes)
      ensures thrown <==> (cat.activationOutput || input + output != |nodes|)
                          && !(0 <= Drawn(r1, Mutable(cat.activationOutput), input) < |nodes|)
      ensures thrown ==> graph.nodes == old(graph.nodes)
      ensures !thrown && (cat.activationOutput || input + output != |nodes|) ==>
                var index := Drawn(r1, Mutable(cat.activationOutput), input);
                var n := nodes[index];
                && (0 <= Mutable(cat.activationOutput) ==> input <= index < input + Mutable(cat.activationOutput))
                && graph.nodes == old(graph.nodes)[n := old(graph.nodes[n]).(squash := NextSquash(cat.allowed, old(graph.nodes[n].squash), r2))]
    {
      if !cat.activationOutput && input + output == |nodes| {
        return false;
      }
      var index := Drawn(r1, Mutable(cat.activationOutput), input);
      if !(0 <= index < |nodes|) {
        return true;
      }
      thrown := graph.Mutate(nodes[index], Catalogued(MOD_ACTIVATION), cat, r2);
    }

    /** `addSelfConnMutation`: among the nodes after the inputs whose
        self-connection has weight 0, the one drawn by `r` gets weight 1;
        with none nothing changes. */
    method AddSelfConn(r: real)
      requires Ready() && 0.0 <= r < 1.0
      modifies this, graph
      ensures Ready() && graph.nodes == old(graph.nodes) && |graph.conns| == old(|graph.conns|)
      ensures Fields() == old(Fields()).(selfconns := selfconns)
      ensures var possible := old(SelfFree(graph.State(), if input <= |nodes| then nodes[input..] else []));
              possible == [] ==> selfconns == old(selfconns) && graph.conns == old(graph.conns)
      ensures var possible := old(SelfFree(graph.State(), if input <= |nodes| then nodes[input..] else []));
              possible != [] ==>
                var n := possible[Pick(r, |possible|)];
                var c := old(graph.nodes[n].self);
                && n in old(nodes[input..])
                && old(graph.conns[c].weight) == 0.0
                && selfconns == old(selfconns) + [c]
                && graph.conns == old(graph.conns)[c := old(graph.conns[c]).(weight := 1.0)]
    {
      var candidates := if input <= |nodes| then nodes[input..] else [];
      assert IdsBelow(candidates, |graph.nodes|);
      var possible := SelfFree(graph.State(), candidates);
      if possible == [] {
        return;
      }
      var n := possible[Pick(r, |possible|)];
      assert n in candidates;
      var res := Connect(n, n, None, 0.0);
    }

    /** `addGateMutation`: among the ungated connections and
        self-connections, the one drawn by `r2` is gated by the node at the
        position `r1` draws after the inputs; with no candidate nothing
        changes, and a position past the end gates by `undefined`, which
        throws. */
    method AddGate(r1: real, r2: real) returns (thrown: bool)
      requires Ready() && 0.0 <= r1 < 1.0 && 0.0 <= r2 < 1.0
      modifies this, graph
      ensures Ready() && |graph.nodes| == old(|graph.nodes|) && |graph.conns| == old(|graph.conns|)
      ensures Fields() == old(Fields()).(gates := gates)
      ensures var possible := old(Ungated(graph.State(), connections + selfconns));
              var index := Drawn(r1, |nodes| - input, input);
              && (possible == [] ==> !thrown && gates == old(gates) && graph.State() == old(graph.State()))
              && (possible != [] ==> (thrown <==> |nodes| <= index))
              && (thrown ==> gates == old(gates) && graph.State() == old(graph.State()))
              && (possible != [] && !thrown ==>
                   var c := possible[Pick(r2, |possible|)];
                   && input <= index < |nodes| && old(graph.conns[c].gater).None?
                   && gates == old(gates) + [c]
                   && graph.State() == GateOne(old(graph.State()), nodes[index], c)
                   && graph.conns[c].gater == Some(nodes[index]))
    {
      var all := connections + selfconns;
      assert IdsBelow(all, |graph.conns|) by {
        assert forall k :: 0 <= k < |all| ==> all[k] == if k < |connections| then connections[k] else selfconns[k - |connections|];
      }
      var possible := Ungated(graph.State(), all);
      if possible == [] {
        return false;
      }
      var index := Drawn(r1, |nodes| - input, input);
      if |nodes| <= index {
        return true;
      }
      var c := possible[Pick(r2, |possible|)];
      thrown := Gate(nodes[index], c);
    }

    /** `subGateMutation`: with no gated connection nothing changes;
        otherwise the one drawn by `r` is ungated. */
    method SubGate(r: real) returns (thrown: bool)
      requires Ready() && 0.0 <= r < 1.0
      modifies this, graph
      ensures Ready() && |graph.nodes| == old(|graph.nodes|) && |graph.conns| == old(|graph.conns|)
      ensures Fields() == old(Fields()).(gates := gates)
      ensures old(gates) == [] ==> !thrown && gates == old(gates) && graph.State() == old(graph.State())
      ensures old(gates) != [] ==>
                var c := old(gates)[Pick(r, old(|gates|))];
                var out := old(NetUngate(graph.State(), gates, c));
                && (thrown <==> old(graph.conns[c].gater).None?)
                && (!thrown ==> (graph.State(), gates) == out.value)
    {
      if gates == [] {
        return false;
      }
      var c := gates[Pick(r, |gates|)];
      thrown := Ungate(c);
    }

    /** `swapNodesMutation`: two nodes drawn among the hidden nodes, and
        the outputs too when `cat.swapOutput`, exchange bias and squash;
        with fewer than two such nodes nothing changes. */
    method Swap(cat: Catalogue, r1: real, r2: real)
      requires Ready() && 0.0 <= r1 < 1.0 && 0.0 <= r2 < 1.0
      modifies graph
      ensures Ready() && graph.conns == old(graph.conns) && |graph.nodes| == old(|graph.nodes|)
      ensures Mutable(cat.swapOutput) < 2 ==> graph.nodes == old(graph.nodes)
      ensures Mutable(cat.swapOutput) >= 2 ==>
                var i1 := Drawn(r1, Mutable(cat.swapOutput), input);
                var i2 := Drawn(r2, Mutable(cat.swapOutput), input);
                && input <= i1 < input + Mutable(cat.swapOutput) && input <= i2 < input + Mutable(cat.swapOutput)
                && var a, b := nodes[i1], nodes[i2];
                   && graph.nodes[a].bias == old(graph.nodes[b].bias) && graph.nodes[a].squash == old(graph.nodes[b].squash)
                   && graph.nodes[b].bias == old(graph.nodes[a].bias) && graph.nodes[b].squash == old(graph.nodes[a].squash)
                   && forall n :: 0 <= n < |graph.nodes| && n != a && n != b ==> graph.nodes[n] == old(graph.nodes[n])
    {
      if Mutable(cat.swapOutput) < 2 {
        return;
      }
      var i1 := Drawn(r1, Mutable(cat.swapOutput), input);
      var i2 := Drawn(r2, Mutable(cat.swapOutput), input);
      var a, b := nodes[i1], nodes[i2];
      var na, nb := graph.nodes[a], graph.nodes[b];
      SetNodeOk(graph.State(), a, na.(bias := nb.bias, squash := nb.squash));
      graph.nodes := graph.nodes[a := na.(bias := nb.bias, squash := nb.squash)];
      SetNodeOk(graph.State(), b, nb.(bias := na.bias, squash := na.squash));
      graph.nodes := graph.nodes[b := nb.(bias := na.bias, squash := na.squash)];
    }

    /** `subNodeMutation`: with only input and output nodes nothing
        changes; otherwise the node at the position `r` draws among the
        hidden nodes is removed (`d` and `e` feed `remove`). A position
        outside `nodes` removes `undefined`, which throws. */
    method SubNode(keepGates: bool, r: real, d: nat -> real, e: nat -> real) returns (thrown: bool)
      requires Ready() && 0.0 <= r < 1.0 && Uniform(d) && Uniform(e)
      modifies this, graph
      ensures Ready() && Grown() && |graph.nodes| == old(|graph.nodes|)
      ensures input == old(input) && output == old(output)
      ensures old(|nodes| == input + output) ==> !thrown && Fields() == old(Fields()) && graph.State() == old(graph.State())
      ensures old(|nodes| != input + output) ==>
                var index := old(Drawn(r, |nodes| - output - input, input));
                && (!(0 <= index < old(|nodes|)) ==> thrown && Fields() == old(Fields()) && graph.State() == old(graph.State()))
                && (!thrown ==>
                     && 0 <= index < old(|nodes|)
                     && (old(input + output < |nodes|) ==> old(input <= index < |nodes| - output))
                     && multiset(nodes) == multiset(old(nodes)) - multiset{old(nodes)[index]}
                     && (InsLinked(old(graph.State()), old(nodes)[index]) && OutsLinked(old(graph.State()), old(nodes)[index]) ==>
                           Bridges(old(graph.State()), graph.State(), old(nodes)[index])))
                && (&& 0 <= index < old(|nodes|) && GatesKept(old(graph.State()), old(Fields()))
                    && InsLinked(old(graph.State()), old(nodes)[index]) && OutsLinked(old(graph.State()), old(nodes)[index]) ==>
                      && !thrown && GatesKept(graph.State(), Fields())
                      && graph.nodes[old(nodes)[index]].ins == [] && graph.nodes[old(nodes)[index]].outs == []
                      && graph.nodes[old(nodes)[index]].gated == [])
    {
      if |nodes| == input + output {
        return false;
      }
      var index := Drawn(r, |nodes| - output - input, input);
      if !(0 <= index < |nodes|) {
        return true;
      }
      thrown := Remove(nodes[index], keepGates, d, e);
    }

    /** `addNodeMutation`: the connection drawn by `d(0)` is disconnected,
        and a new hidden node (bias draw `d(1)`, squash draw `d(2)`) is
        inserted at `min(index of the target, |nodes| - output)` and wired
        from the source and to the target (weight draws `d(3)`, `d(4)`);
        the old gater, if any, gates the first new connection when
        `d(5) >= 0.5` and the second otherwise. Without connections the
        drawn connection is `undefined` and reading its gater throws. */
    method AddNode(cat: Catalogue, d: nat -> real) returns (thrown: bool)
      requires Ready() && Uniform(d)
      modifies this, graph
      ensures Ready() && Grown()
      ensures input == old(input) && output == old(output)
      ensures old(connections) == [] ==> thrown && Fields() == old(Fields()) && graph.State() == old(graph.State())
      ensures !thrown ==>
                var c := old(connections[Pick(d(0), |connections|)]);
                var from, to := old(graph.conns[c].from), old(graph.conns[c].to);
                var node := old(|graph.nodes|);
                && |graph.nodes| == node + 1 && graph.nodes[node].nodeType == "hidden"
                && nodes == old(InsertAt(nodes, NewNodeAt(|nodes|, IndexOf(nodes, to), output), node))
                && ProjectsTo(graph.State(), from, node) && ProjectsTo(graph.State(), node, to)
      ensures !thrown ==>
                var c := old(connections[Pick(d(0), |connections|)]);
                var made := old(|graph.conns|) + (if d(5) >= 0.5 then 1 else 2);
                old(graph.conns[c].gater).Some? ==> made in connections && graph.conns[made].gater == old(graph.conns[c].gater)
    {
      if connections == [] {
        return true;
      }
      var c := connections[Pick(d(0), |connections|)];
      assert ConnOk(graph.conns[c], |graph.nodes|);
      var from, to, gater := graph.conns[c].from, graph.conns[c].to, graph.conns[c].gater;
      thrown := Disconnect(from, to);
      if thrown {
        return;
      }
      thrown := Split(cat, from, to, gater, d);
    }

    /** `addNodeMutation` after the disconnect: the new node, its place in
        `nodes` and its connections. */
    method Split(cat: Catalogue, from: nat, to: nat, gater: Option<nat>, d: nat -> real) returns (thrown: bool)
      requires Ready() && Uniform(d) && from < |graph.nodes| && to < |graph.nodes|
      requires gater.Some? ==> gater.value < |graph.nodes|
      modifies this, graph
      ensures Ready() && Grown() && input == old(input) && output == old(output)
      ensures !thrown ==>
                var node := old(|graph.nodes|);
                && |graph.nodes| == node + 1 && graph.nodes[node].nodeType == "hidden"
                && nodes == old(InsertAt(nodes, NewNodeAt(|nodes|, IndexOf(nodes, to), output), node))
                && ProjectsTo(graph.State(), from, node) && ProjectsTo(graph.State(), node, to)
      ensures !thrown && gater.Some? ==>
                var made := old(|graph.conns|) + (if d(5) >= 0.5 then 1 else 2);
                made in connections && graph.conns[made].gater == gater
    {
      var k := NewNodeAt(|nodes|, IndexOf(nodes, to), output);
      var node := InsertHidden(cat, k, from, d(1), d(2));
      thrown := Wire(from, to, node, gater, d(3), d(4), d(5));
    }

    /** The new hidden node of `addNodeMutation` (bias draw `r1`, squash
        draw `r2`), inserted into `nodes` at position `k`. */
    method InsertHidden(cat: Catalogue, k: nat, from: nat, r1: real, r2: real) returns (node: nat)
      requires Ready() && from < |graph.nodes| && k <= |nodes| && 0.0 <= r1 < 1.0 && 0.0 <= r2 < 1.0
      modifies this, graph
      ensures Ready() && Grown() && node == old(|graph.nodes|) && |graph.nodes| == node + 1
      ensures |graph.conns| == old(|graph.conns|) + 1
      ensures graph.nodes[node] == InitialNode(Some("hidden"), r1, old(|graph.conns|)).(squash := NextSquash(cat.allowed, Some(LOGISTIC), r2))
      ensures !ProjectsTo(graph.State(), from, node)
      ensures Fields() == old(Fields()).(nodes := InsertAt(old(nodes), k, node))
    {
      ghost var s := graph.State();
      node := graph.NewNode(Some("hidden"), r1);
      var unknown := graph.Mutate(node, Catalogued(MOD_ACTIVATION), cat, r2);
      FreshTarget(s, graph.State(), from);
      BelowGrow(nodes, old(|graph.nodes|), |graph.nodes|);
      BelowGrow(connections, old(|graph.conns|), |graph.conns|);
      BelowGrow(gates, old(|graph.conns|), |graph.conns|);
      BelowGrow(selfconns, old(|graph.conns|), |graph.conns|);
      nodes := InsertAt(nodes, k, node);
    }

    /** The connections of `addNodeMutation`: `from` to the new node, the
        new node to `to`, and the old gater on one of them; gating by a
        gater outside `nodes` throws. */
    method Wire(from: nat, to: nat, node: nat, gater: Option<nat>, w1: real, w2: real, coin: real) returns (thrown: bool)
      requires Ready() && from < node && to < node && node < |graph.nodes|
      requires 0.0 <= w1 < 1.0 && 0.0 <= w2 < 1.0
      requires graph.nodes[node].outs == [] && !ProjectsTo(graph.State(), from, node)
      requires gater.Some? ==> gater.value < |graph.nodes|
      modifies this, graph
      ensures Ready() && Grown() && |graph.nodes| == old(|graph.nodes|) && |graph.conns| == old(|graph.conns|) + 2
      ensures Fields() == old(Fields()).(connections := old(connections) + [old(|graph.conns|), old(|graph.conns|) + 1], gates := gates)
      ensures ProjectsTo(graph.State(), from, node) && ProjectsTo(graph.State(), node, to)
      ensures graph.nodes[node].nodeType == old(graph.nodes[node].nodeType)
      ensures gater.None? ==> !thrown && gates == old(gates)
      ensures gater.Some? ==> (thrown <==> gater.value !in nodes)
      ensures gater.Some? && !thrown ==>
                var made := old(|graph.conns|) + (if coin >= 0.5 then 0 else 1);
                gates == old(gates) + [made] && graph.conns[made].gater == gater
    {
      var c1, c2 := Link(from, to, node, w1, w2);
      if gater.None? {
        return false;
      }
      var made := if coin >= 0.5 then c1 else c2;
      thrown := GateMade(gater.value, made, from, node, to);
    }

    /** The gate of `addNodeMutation`: the new connection `c` is gated by
        `g` when `g` is in the network; the new node stays wired. */
    method GateMade(g: nat, c: nat, from: nat, node: nat, to: nat) returns (thrown: bool)
      requires Ready() && g < |graph.nodes| && c < |graph.conns| && graph.conns[c].gater.None?
      requires from < |graph.nodes| && node < |graph.nodes| && to < |graph.nodes|
      requires ProjectsTo(graph.State(), from, node) && ProjectsTo(graph.State(), node, to)
      modifies this, graph
      ensures Ready() && |graph.nodes| == old(|graph.nodes|) && |graph.conns| == old(|graph.conns|)
      ensures Fields() == old(Fields()).(gates := gates)
      ensures thrown <==> g !in nodes
      ensures thrown ==> gates == old(gates)
      ensures !thrown ==> gates == old(gates) + [c] && graph.conns[c].gater == Some(g)
      ensures ProjectsTo(graph.State(), from, node) && ProjectsTo(graph.State(), node, to)
      ensures graph.nodes[node].nodeType == old(graph.nodes[node].nodeType)
    {
      ghost var t := graph.State();
      thrown := Gate(g, c);
      if !thrown {
        GateKeepsProjection(t, g, c, from, node);
        GateKeepsProjection(t, g, c, node, to);
      }
    }

    /** The two connects of `addNodeMutation`. Neither can throw, since
        nothing projects to a new node and a new node projects nowhere. */
    method Link(from: nat, to: nat, node: nat, w1: real, w2: real) returns (c1: nat, c2: nat)
      requires Ready() && from < node && to < node && node < |graph.nodes|
      requires 0.0 <= w1 < 1.0 && 0.0 <= w2 < 1.0
      requires graph.nodes[node].outs == [] && !ProjectsTo(graph.State(), from, node)
      modifies this, graph
      ensures Ready() && |graph.nodes| == old(|graph.nodes|)
      ensures c1 == old(|graph.conns|) && c2 == c1 + 1 && |graph.conns| == c2 + 1
      ensures Fields() == old(Fields()).(connections := old(connections) + [c1, c2])
      ensures ProjectsTo(graph.State(), from, node) && ProjectsTo(graph.State(), node, to)
      ensures graph.conns[c1].gater.None? && graph.conns[c2].gater.None?
      ensures graph.nodes[node].nodeType == old(graph.nodes[node].nodeType)
    {
      var res1 := Connect(from, node, None, w1);
      c1 := res1.value;
      assert graph.nodes[node].outs == [];
      ghost var s1 := graph.State();
      var res2 := Connect(node, to, None, w2);
      c2 := res2.value;
      ConnectKeepsProjection(s1, node, to, None, w2, from, node);
      assert graph.conns[c1] == s1.conns[c1];
    }

    /** `toJSON()`: walks `nodes`, writing each node's position into its
        `index`, its object, and its self-connection when that has a
        weight; then writes `connections`. A node whose squash is
        `undefined` throws. Nothing but the nodes' `index` changes. */
    method ToJSON() returns (json: Outcome<NetworkJSON>)
      requires Ready()
      modifies graph
      ensures Ready() && graph.conns == old(graph.conns) && |graph.nodes| == old(|graph.nodes|)
      ensures forall n :: 0 <= n < |graph.nodes| ==> graph.nodes[n] == old(graph.nodes[n]).(index := graph.nodes[n].index)
      ensures json == Serialized(old(graph.State()), nodes, connections, input, output, dropout)
      ensures json.Done? ==> graph.State() == IndexedUpTo(old(graph.State()), nodes, |nodes|)
    {
      var objects, selfs := WalkNodes();
      if objects.Throws? {
        return Throws;
      }
      var entries := ConnEntries();
      json := Done(NetworkJSON(objects.value, selfs + entries, input, output, dropout));
    }

    /** The walk over `nodes` of `toJSON`, run on the arena's value and
        written back: on a throw, the positions written so far stay. */
    method WalkNodes() returns (objects: Outcome<seq<NodeJSON>>, selfs: seq<ConnJSON>)
      requires Ready()
      modifies graph
      ensures Ready() && graph.conns == old(graph.conns) && |graph.nodes| == old(|graph.nodes|)
      ensures forall n :: 0 <= n < |graph.nodes| ==> graph.nodes[n] == old(graph.nodes[n]).(index := graph.nodes[n].index)
      ensures objects == NodesJSON(old(graph.State()), nodes, |nodes|)
      ensures objects.Done? ==> graph.State() == IndexedUpTo(old(graph.State()), nodes, |nodes|)
                                && selfs == SelfsJSON(old(graph.State()), nodes, |nodes|)
    {
      var st, rounds;
      st, rounds, objects, selfs := Walk(graph.State(), nodes);
      IndexedFrame(graph.State(), nodes, rounds);
      graph.nodes := st.nodes;
    }

    /** The entries `toJSON` writes for `connections`. */
    method ConnEntries() returns (entries: seq<ConnJSON>)
      requires Ready()
      ensures entries == ConnsJSON(graph.State(), connections)
    {
      var cs := connections;
      entries := [];
      var j: nat := 0;
      while j < |cs|
        invariant j <= |cs| && cs == connections
        invariant entries == ConnsJSON(graph.State(), cs[..j])
      {
        assert cs[..j + 1] == cs[..j] + [cs[j]];
        var conn := graph.conns[cs[j]];
        entries := entries + [ConnJSON(conn.weight, IndexRef(graph.State(), conn.from), IndexRef(graph.State(), conn.to),
                                       GaterRef(graph.State(), conn.gater))];
        j := j + 1;
      }
      assert cs[..j] == cs;
    }

    /** `mutate(method)`: a missing method, or one that is not in the
        catalogue, throws before anything changes; a catalogue entry runs
        its operator. `d` supplies the operator's draws in call order (for
        `SUB_NODE` the position, then the weights of `remove`) and `e` the
        gater draws of `remove`; `cat` holds the entries' settings. No
        operator changes the number of inputs or outputs, and none shrinks
        the arena. */
    method Mutate(m: MethodArg, cat: Catalogue, d: nat -> real, e: nat -> real) returns (thrown: bool)
      requires Ready() && Uniform(d) && Uniform(e)
      modifies this, graph
      ensures Ready() && Grown()
      ensures input == old(input) && output == old(output)
      ensures !m.Catalogued? ==> thrown && Fields() == old(Fields()) && graph.State() == old(graph.State())
      ensures m == Catalogued(ADD_NODE) && old(connections) == [] ==> thrown
      ensures m == Catalogued(MOD_WEIGHT) ==> (thrown <==> old(connections + selfconns) == [])
      ensures m.Catalogued? && m.m in {ADD_CONN, ADD_BACK_CONN, ADD_SELF_CONN, SWAP_NODES} ==> !thrown
      ensures m.Catalogued? && !Growing(m.m) ==>
                |graph.nodes| == old(|graph.nodes|) && |graph.conns| == old(|graph.conns|)
    {
      if !m.Catalogued? {
        return true;
      }
      if Growing(m.m) {
        thrown := Grow(m.m, cat, d, e);
      } else {
        thrown := Tune(m.m, cat, d);
      }
    }

    /** The operators that may add nodes or connections to the arena. */
    static predicate Growing(op: Mutation)
    {
      op in {ADD_NODE, SUB_NODE, ADD_CONN, ADD_BACK_CONN}
    }

    /** `mutate` for the operators that add nodes or connections. */
    method Grow(op: Mutation, cat: Catalogue, d: nat -> real, e: nat -> real) returns (thrown: bool)
      requires Ready() && Uniform(d) && Uniform(e) && Growing(op)
      modifies this, graph
      ensures Ready() && Grown()
      ensures input == old(input) && output == old(output)
      ensures op == ADD_NODE && old(connections) == [] ==> thrown
      ensures op in {ADD_CONN, ADD_BACK_CONN} ==> !thrown
    {
      match op
      case ADD_NODE =>
        thrown := AddNode(cat, d);
      case SUB_NODE =>
        thrown := SubNode(cat.keepGates, d(0), (k: nat) => d(k + 1), e);
      case ADD_CONN =>
        AddConn(d(0), d(1));
        thrown := false;
      case ADD_BACK_CONN =>
        AddBackConn(d(0), d(1));
        thrown := false;
    }

    /** `mutate` for the operators that only rewire or retune what the
        arena already holds. */
    method Tune(op: Mutation, cat: Catalogue, d: nat -> real) returns (thrown: bool)
      requires Ready() && Uniform(d) && !Growing(op)
      modifies this, graph
      ensures Ready() && |graph.nodes| == old(|graph.nodes|) && |graph.conns| == old(|graph.conns|)
      ensures input == old(input) && output == old(output)
      ensures op == MOD_WEIGHT ==> (thrown <==> old(connections + selfconns) == [])
      ensures op in {ADD_SELF_CONN, SWAP_NODES} ==> !thrown
    {
      if op in {MOD_WEIGHT, MOD_BIAS, MOD_ACTIVATION, SWAP_NODES} {
        thrown := Retune(op, cat, d);
      } else {
        thrown := Rewire(op, d);
      }
    }

    /** `mutate` for the operators that change weights, biases or squashes
        and nothing else. */
    method Retune(op: Mutation, cat: Catalogue, d: nat -> real) returns (thrown: bool)
      requires Ready() && Uniform(d) && op in {MOD_WEIGHT, MOD_BIAS, MOD_ACTIVATION, SWAP_NODES}
      modifies graph
      ensures Ready() && |graph.nodes| == old(|graph.nodes|) && |graph.conns| == old(|graph.conns|)
      ensures op == MOD_WEIGHT ==> (thrown <==> old(connections + selfconns) == [])
      ensures op == SWAP_NODES ==> !thrown
    {
      match op
      case MOD_WEIGHT =>
        thrown := ModWeight(cat, d(0), d(1));
      case MOD_BIAS =>
        thrown := ModBias(cat, d(0), d(1));
      case MOD_ACTIVATION =>
        thrown := ModActivation(cat, d(0), d(1));
      case SWAP_NODES =>
        Swap(cat, d(0), d(1));
        thrown := false;
    }

    /** `mutate` for the operators that drop connections or add or drop
        self-connections and gates. */
    method Rewire(op: Mutation, d: nat -> real) returns (thrown: bool)
      requires Ready() && Uniform(d)
      requires op in {SUB_CONN, SUB_BACK_CONN, ADD_SELF_CONN, SUB_SELF_CONN, ADD_GATE, SUB_GATE}
      modifies this, graph
      ensures Ready() && |graph.nodes| == old(|graph.nodes|) && |graph.conns| == old(|graph.conns|)
      ensures input == old(input) && output == old(output)
      ensures op == ADD_SELF_CONN ==> !thrown
    {
      match op
      case SUB_CONN =>
        thrown := SubConn(true, d(0));
      case SUB_BACK_CONN =>
        thrown := SubConn(false, d(0));
      case ADD_SELF_CONN =>
        AddSelfConn(d(0));
        thrown := false;
      case SUB_SELF_CONN =>
        thrown := SubSelfConn(d(0));
      case ADD_GATE =>
        thrown := AddGate(d(0), d(1));
      case SUB_GATE =>
        thrown := SubGate(d(0));
    }
  }
}

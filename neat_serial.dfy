// The JSON form of a NeatJS network (Javascript/NeatJS/src/architecture/
// network.js, `toJSON`) as functions of the arena. `toJSON` numbers the nodes
// as it walks `nodes`, writing each position into the node's `index`
// property, and every reference in the output is read from that property.
// A self-connection's gater is read while the walk is still under way, so a
// gater later in `nodes` is written with whatever `index` it carried before
// the call (`undefined` on a node never serialized). `Serialized` is that
// behaviour; `SerializedFixed` reads every gater after the walk.

module NeatSerial {
  import opened NeatConnection
  import opened NeatNode

  /** A JSON slot holding a node position: `null`, `undefined`, or a number. */
  datatype Ref = Null | Undefined | At(i: int)

  /** What `toJSON` writes for a connection: its weight (`conn.toJSON()`)
      and the positions of its ends and of its gater. */
  datatype ConnJSON = ConnJSON(weight: real, from: Ref, to: Ref, gater: Ref)

  datatype NetworkJSON = NetworkJSON(
    nodes: seq<NodeJSON>, connections: seq<ConnJSON>, input: nat, output: nat, dropout: real)

  /** `node.index`. */
  function IndexRef(s: Store, n: nat): (r: Ref)
    requires n < |s.nodes|
    ensures r.Undefined? <==> s.nodes[n].index.None?
    ensures r.At? ==> s.nodes[n].index == Some(r.i)
  {
    if s.nodes[n].index.None? then Undefined else At(s.nodes[n].index.value)
  }

  /** `conn.gater ? conn.gater.index : null`. */
  function GaterRef(s: Store, g: Option<nat>): (r: Ref)
    requires g.Some? ==> g.value < |s.nodes|
    ensures r.Null? <==> g.None?
  {
    if g.None? then Null else IndexRef(s, g.value)
  }

  /** `node.index = i`. */
  function SetIndex(s: Store, n: nat, i: nat): (t: Store)
    requires n < |s.nodes|
    ensures t.conns == s.conns && t.nodes == s.nodes[n := s.nodes[n].(index := Some(i))]
    ensures StoreOk(s) ==> StoreOk(t)
  {
    var t := Store(s.nodes[n := s.nodes[n].(index := Some(i))], s.conns);
    assert StoreOk(s) ==> StoreOk(t) by {
      if StoreOk(s) {
        assert NodeOk(s.nodes[n], |s.conns|);
        SetNodeOk(s, n, s.nodes[n].(index := Some(i)));
      }
    }
    t
  }

  /** The arena after the first `k` rounds of the walk over `nodes`. */
  function IndexedUpTo(s: Store, nodes: seq<nat>, k: nat): (t: Store)
    requires IdsBelow(nodes, |s.nodes|) && k <= |nodes|
    ensures t.conns == s.conns && |t.nodes| == |s.nodes|
    ensures StoreOk(s) ==> StoreOk(t)
    decreases k
  {
    if k == 0 then s else SetIndex(IndexedUpTo(s, nodes, k - 1), nodes[k - 1], k - 1)
  }

  /** The walk changes `index` and nothing else. */
  lemma {:induction false} IndexedFrame(s: Store, nodes: seq<nat>, k: nat)
    requires IdsBelow(nodes, |s.nodes|) && k <= |nodes|
    ensures var t := IndexedUpTo(s, nodes, k);
            forall n :: 0 <= n < |s.nodes| ==> t.nodes[n] == s.nodes[n].(index := t.nodes[n].index)
  {
    if k > 0 {
      IndexedFrame(s, nodes, k - 1);
    }
  }

  /** A node not among the first `k` of `nodes` keeps its old `index`. */
  lemma {:induction false} IndexKept(s: Store, nodes: seq<nat>, k: nat, n: nat)
    requires IdsBelow(nodes, |s.nodes|) && k <= |nodes| && n < |s.nodes| && n !in nodes[..k]
    ensures IndexedUpTo(s, nodes, k).nodes[n].index == s.nodes[n].index
  {
    if k > 0 {
      assert nodes[k - 1] in nodes[..k];
      assert nodes[..k - 1] <= nodes[..k];
      IndexKept(s, nodes, k - 1, n);
    }
  }

  /** After `k` rounds, a node carries the last position below `k` where it
      occurs. */
  lemma {:induction false} IndexLast(s: Store, nodes: seq<nat>, k: nat, j: nat)
    requires IdsBelow(nodes, |s.nodes|) && j < k <= |nodes| && nodes[j] !in nodes[j + 1..k]
    ensures IndexedUpTo(s, nodes, k).nodes[nodes[j]].index == Some(j)
  {
    if j < k - 1 {
      assert nodes[k - 1] in nodes[j + 1..k];
      assert nodes[j + 1..k - 1] <= nodes[j + 1..k];
      IndexLast(s, nodes, k - 1, j);
    }
  }

  /** The node objects of the walk, `node.toJSON()` for each; the first
      node whose squash is `undefined` throws. */
  function NodesJSON(s: Store, nodes: seq<nat>, k: nat): (r: Outcome<seq<NodeJSON>>)
    requires IdsBelow(nodes, |s.nodes|) && k <= |nodes|
    ensures r.Done? <==> forall j :: 0 <= j < k ==> s.nodes[nodes[j]].squash.Some?
    ensures r.Done? ==> |r.value| == k && forall j :: 0 <= j < k ==> NodeToJSON(s.nodes[nodes[j]]) == Done(r.value[j])
    decreases k
  {
    if k == 0 then Done([])
    else
      var prefix := NodesJSON(s, nodes, k - 1);
      var last := NodeToJSON(s.nodes[nodes[k - 1]]);
      if prefix.Throws? || last.Throws? then Throws else Done(prefix.value + [last.value])
  }

  /** The self-connection entry of the node `n` at position `i`: written
      only when the self weight is not 0, with the gater read from `s`. */
  function SelfJSON(s: Store, n: nat, i: nat): (r: seq<ConnJSON>)
    requires StoreOk(s) && n < |s.nodes|
    ensures var c := s.conns[s.nodes[n].self];
            && (r == [] <==> c.weight == 0.0)
            && (r != [] ==> r == [ConnJSON(c.weight, At(i), At(i), GaterRef(s, c.gater))])
  {
    var c := s.conns[s.nodes[n].self];
    if c.weight == 0.0 then [] else [ConnJSON(c.weight, At(i), At(i), GaterRef(s, c.gater))]
  }

  /** The self-connection entries as `toJSON` writes them: the entry of the
      node at position `j` reads the arena as it is after round `j`. */
  function SelfsJSON(s: Store, nodes: seq<nat>, k: nat): seq<ConnJSON>
    requires StoreOk(s) && IdsBelow(nodes, |s.nodes|) && k <= |nodes|
    decreases k
  {
    if k == 0 then [] else SelfsJSON(s, nodes, k - 1) + SelfJSON(IndexedUpTo(s, nodes, k), nodes[k - 1], k - 1)
  }

  /** One round of the walk: node `nodes[i]` gets `index` `i`, and its
      object and self entry are appended. */
  lemma WalkRound(s: Store, nodes: seq<nat>, i: nat)
    requires StoreOk(s) && IdsBelow(nodes, |s.nodes|) && i < |nodes|
    ensures IndexedUpTo(s, nodes, i + 1) == SetIndex(IndexedUpTo(s, nodes, i), nodes[i], i)
    ensures NodeToJSON(IndexedUpTo(s, nodes, i + 1).nodes[nodes[i]]) == NodeToJSON(s.nodes[nodes[i]])
    ensures NodesJSON(s, nodes, i + 1) ==
            if NodesJSON(s, nodes, i).Throws? || NodeToJSON(s.nodes[nodes[i]]).Throws? then Throws
            else Done(NodesJSON(s, nodes, i).value + [NodeToJSON(s.nodes[nodes[i]]).value])
    ensures SelfsJSON(s, nodes, i + 1) == SelfsJSON(s, nodes, i) + SelfJSON(IndexedUpTo(s, nodes, i + 1), nodes[i], i)
  {
    IndexedFrame(s, nodes, i + 1);
  }

  /** The self-connection entries read from the arena `t` after the walk. */
  function SelfsFixed(t: Store, nodes: seq<nat>, k: nat): seq<ConnJSON>
    requires StoreOk(t) && IdsBelow(nodes, |t.nodes|) && k <= |nodes|
    decreases k
  {
    if k == 0 then [] else SelfsFixed(t, nodes, k - 1) + SelfJSON(t, nodes[k - 1], k - 1)
  }

  /** The entry of one connection of `connections`. */
  function ConnEntry(t: Store, c: nat): (r: ConnJSON)
    requires StoreOk(t) && c < |t.conns|
    ensures r.weight == t.conns[c].weight && r.from == IndexRef(t, t.conns[c].from) && r.to == IndexRef(t, t.conns[c].to)
    ensures r.gater == GaterRef(t, t.conns[c].gater)
  {
    var conn := t.conns[c];
    ConnJSON(conn.weight, IndexRef(t, conn.from), IndexRef(t, conn.to), GaterRef(t, conn.gater))
  }

  /** The entries of `connections`, in order, read after the walk. */
  function ConnsJSON(t: Store, connections: seq<nat>): (r: seq<ConnJSON>)
    requires StoreOk(t) && IdsBelow(connections, |t.conns|)
    ensures |r| == |connections| && forall q :: 0 <= q < |r| ==> r[q] == ConnEntry(t, connections[q])
  {
    seq(|connections|, q requires 0 <= q < |connections| => ConnEntry(t, connections[q]))
  }

  /** `toJSON()` as written. */
  function Serialized(s: Store, nodes: seq<nat>, connections: seq<nat>, input: nat, output: nat, dropout: real): (r: Outcome<NetworkJSON>)
    requires StoreOk(s) && IdsBelow(nodes, |s.nodes|) && IdsBelow(connections, |s.conns|)
  {
    var js := NodesJSON(s, nodes, |nodes|);
    if js.Throws? then Throws
    else
      var t := IndexedUpTo(s, nodes, |nodes|);
      Done(NetworkJSON(js.value, SelfsJSON(s, nodes, |nodes|) + ConnsJSON(t, connections), input, output, dropout))
  }

  /** `toJSON()` with every gater read after the walk. */
  function SerializedFixed(s: Store, nodes: seq<nat>, connections: seq<nat>, input: nat, output: nat, dropout: real): (r: Outcome<NetworkJSON>)
    requires StoreOk(s) && IdsBelow(nodes, |s.nodes|) && IdsBelow(connections, |s.conns|)
  {
    var js := NodesJSON(s, nodes, |nodes|);
    if js.Throws? then Throws
    else
      var t := IndexedUpTo(s, nodes, |nodes|);
      Done(NetworkJSON(js.value, SelfsFixed(t, nodes, |nodes|) + ConnsJSON(t, connections), input, output, dropout))
  }

  // ---------------------------------------------------------------------
  // Where the references point

  /** No node occurs twice in `nodes`. */
  predicate Distinct(nodes: seq<nat>)
  {
    forall i, j :: 0 <= i < j < |nodes| ==> nodes[i] != nodes[j]
  }

  /** Every node of `nodes` carries its position as `index`. */
  predicate Numbered(t: Store, nodes: seq<nat>)
    requires IdsBelow(nodes, |t.nodes|)
  {
    forall j :: 0 <= j < |nodes| ==> t.nodes[nodes[j]].index == Some(j)
  }

  /** With no repeats in `nodes`, the `index` of the node at position `j`
      is `j` once the walk has passed it, and untouched before. */
  lemma IndexedDistinct(s: Store, nodes: seq<nat>, k: nat, j: nat)
    requires IdsBelow(nodes, |s.nodes|) && Distinct(nodes) && k <= |nodes| && j < |nodes|
    ensures IndexedUpTo(s, nodes, k).nodes[nodes[j]].index == if j < k then Some(j) else s.nodes[nodes[j]].index
  {
    if j < k {
      assert nodes[j] !in nodes[j + 1..k] by {
        forall x | j + 1 <= x < k
          ensures nodes[x] != nodes[j]
        {
        }
      }
      IndexLast(s, nodes, k, j);
    } else {
      assert nodes[j] !in nodes[..k] by {
        forall x | 0 <= x < k
          ensures nodes[x] != nodes[j]
        {
        }
      }
      IndexKept(s, nodes, k, nodes[j]);
    }
  }

  /** After the whole walk over a list without repeats, every node of the
      list carries its position. */
  lemma WalkNumbers(s: Store, nodes: seq<nat>)
    requires IdsBelow(nodes, |s.nodes|) && Distinct(nodes)
    ensures Numbered(IndexedUpTo(s, nodes, |nodes|), nodes)
  {
    forall j | 0 <= j < |nodes|
      ensures IndexedUpTo(s, nodes, |nodes|).nodes[nodes[j]].index == Some(j)
    {
      IndexedDistinct(s, nodes, |nodes|, j);
    }
  }

  /** Every reference of an entry is a position in `0 .. k - 1`, or the
      gater is `null`. */
  predicate RefsIn(e: ConnJSON, k: nat)
  {
    && e.from.At? && 0 <= e.from.i < k && e.to.At? && 0 <= e.to.i < k
    && (e.gater.Null? || (e.gater.At? && 0 <= e.gater.i < k))
  }

  /** `g`, if any, is one of `nodes`. */
  predicate GaterIn(g: Option<nat>, nodes: seq<nat>)
  {
    g.Some? ==> g.value in nodes
  }

  /** Every node a serialized connection refers to is in the network. */
  predicate Closed(s: Store, nodes: seq<nat>, connections: seq<nat>)
    requires StoreOk(s) && IdsBelow(nodes, |s.nodes|) && IdsBelow(connections, |s.conns|)
  {
    && (forall j :: 0 <= j < |nodes| ==> GaterIn(s.conns[s.nodes[nodes[j]].self].gater, nodes))
    && (forall q :: 0 <= q < |connections| ==>
          s.conns[connections[q]].from in nodes && s.conns[connections[q]].to in nodes
          && GaterIn(s.conns[connections[q]].gater, nodes))
  }

  /** A node of a numbered list is written as its position. */
  lemma RefOfNumbered(t: Store, nodes: seq<nat>, n: nat)
    requires IdsBelow(nodes, |t.nodes|) && Numbered(t, nodes) && n in nodes
    ensures n < |t.nodes| && IndexRef(t, n).At? && 0 <= IndexRef(t, n).i < |nodes| && nodes[IndexRef(t, n).i] == n
  {
    var j := IndexOf(nodes, n);
    assert t.nodes[nodes[j]].index == Some(j);
  }

  /** Every entry of `es` refers to positions below `k` only. */
  predicate AllRefsIn(es: seq<ConnJSON>, k: nat)
  {
    forall i :: 0 <= i < |es| ==> RefsIn(es[i], k)
  }

  lemma AllRefsInAppend(a: seq<ConnJSON>, b: seq<ConnJSON>, k: nat)
    requires AllRefsIn(a, k) && AllRefsIn(b, k)
    ensures AllRefsIn(a + b, k)
  {
    forall i | 0 <= i < |a + b|
      ensures RefsIn((a + b)[i], k)
    {
      if i < |a| {
        assert (a + b)[i] == a[i];
      } else {
        assert (a + b)[i] == b[i - |a|];
      }
    }
  }

  /** The self entry of a numbered node refers to positions only, when its
      gater is a node of the list. */
  lemma SelfRefs(t: Store, nodes: seq<nat>, j: nat)
    requires StoreOk(t) && IdsBelow(nodes, |t.nodes|) && Numbered(t, nodes) && j < |nodes|
    requires GaterIn(t.conns[t.nodes[nodes[j]].self].gater, nodes)
    ensures AllRefsIn(SelfJSON(t, nodes[j], j), |nodes|)
  {
    var g := t.conns[t.nodes[nodes[j]].self].gater;
    if g.Some? {
      RefOfNumbered(t, nodes, g.value);
    }
  }

  /** The self entries read after the walk refer to positions only. */
  lemma {:induction false} SelfsFixedRefs(t: Store, nodes: seq<nat>, k: nat)
    requires StoreOk(t) && IdsBelow(nodes, |t.nodes|) && Numbered(t, nodes) && k <= |nodes|
    requires forall j :: 0 <= j < |nodes| ==> GaterIn(t.conns[t.nodes[nodes[j]].self].gater, nodes)
    ensures AllRefsIn(SelfsFixed(t, nodes, k), |nodes|)
  {
    if k > 0 {
      SelfsFixedRefs(t, nodes, k - 1);
      SelfRefs(t, nodes, k - 1);
      AllRefsInAppend(SelfsFixed(t, nodes, k - 1), SelfJSON(t, nodes[k - 1], k - 1), |nodes|);
    }
  }

  /** The entry of a connection inside a numbered list names its ends and
      its gater by their positions. */
  lemma ConnRefs(t: Store, nodes: seq<nat>, c: nat)
    requires StoreOk(t) && IdsBelow(nodes, |t.nodes|) && Numbered(t, nodes) && c < |t.conns|
    requires t.conns[c].from in nodes && t.conns[c].to in nodes && GaterIn(t.conns[c].gater, nodes)
    ensures var e := ConnEntry(t, c);
            && RefsIn(e, |nodes|)
            && nodes[e.from.i] == t.conns[c].from && nodes[e.to.i] == t.conns[c].to
            && (e.gater.At? <==> t.conns[c].gater.Some?)
            && (e.gater.At? ==> nodes[e.gater.i] == t.conns[c].gater.value)
  {
    RefOfNumbered(t, nodes, t.conns[c].from);
    RefOfNumbered(t, nodes, t.conns[c].to);
    if t.conns[c].gater.Some? {
      RefOfNumbered(t, nodes, t.conns[c].gater.value);
    }
  }

  /** The arena after the walk: numbered, with the connections of `s`. */
  lemma AfterWalk(s: Store, nodes: seq<nat>, connections: seq<nat>)
    requires StoreOk(s) && IdsBelow(nodes, |s.nodes|) && IdsBelow(connections, |s.conns|)
    requires Distinct(nodes) && Closed(s, nodes, connections)
    ensures var t := IndexedUpTo(s, nodes, |nodes|);
            && StoreOk(t) && Numbered(t, nodes) && t.conns == s.conns
            && (forall j :: 0 <= j < |nodes| ==> GaterIn(t.conns[t.nodes[nodes[j]].self].gater, nodes))
            && (forall q :: 0 <= q < |connections| ==>
                  t.conns[connections[q]].from in nodes && t.conns[connections[q]].to in nodes
                  && GaterIn(t.conns[connections[q]].gater, nodes))
  {
    var t := IndexedUpTo(s, nodes, |nodes|);
    WalkNumbers(s, nodes);
    IndexedFrame(s, nodes, |nodes|);
    forall j | 0 <= j < |nodes|
      ensures t.nodes[nodes[j]].self == s.nodes[nodes[j]].self
    {
    }
  }

  /** Corrected `toJSON`: on a network without repeated nodes whose
      connections and gaters all lie inside it, every reference written is a
      position in `nodes`, and the entry of each connection names its ends
      and its gater. */
  lemma FixedRefsResolve(s: Store, nodes: seq<nat>, connections: seq<nat>, input: nat, output: nat, dropout: real)
    requires StoreOk(s) && IdsBelow(nodes, |s.nodes|) && IdsBelow(connections, |s.conns|)
    requires Distinct(nodes) && Closed(s, nodes, connections)
    ensures var r := SerializedFixed(s, nodes, connections, input, output, dropout);
            r.Done? ==> AllRefsIn(r.value.connections, |nodes|)
    ensures var entries := ConnsJSON(IndexedUpTo(s, nodes, |nodes|), connections);
            forall q :: 0 <= q < |connections| ==>
              var e := entries[q];
              && RefsIn(e, |nodes|)
              && nodes[e.from.i] == s.conns[connections[q]].from && nodes[e.to.i] == s.conns[connections[q]].to
              && (e.gater.At? <==> s.conns[connections[q]].gater.Some?)
              && (e.gater.At? ==> nodes[e.gater.i] == s.conns[connections[q]].gater.value)
  {
    var t := IndexedUpTo(s, nodes, |nodes|);
    AfterWalk(s, nodes, connections);
    SelfsFixedRefs(t, nodes, |nodes|);
    var entries := ConnsJSON(t, connections);
    forall q | 0 <= q < |connections|
      ensures var e := entries[q];
              && RefsIn(e, |nodes|)
              && nodes[e.from.i] == t.conns[connections[q]].from && nodes[e.to.i] == t.conns[connections[q]].to
              && (e.gater.At? <==> t.conns[connections[q]].gater.Some?)
              && (e.gater.At? ==> nodes[e.gater.i] == t.conns[connections[q]].gater.value)
    {
      ConnRefs(t, nodes, connections[q]);
    }
    AllRefsInAppend(SelfsFixed(t, nodes, |nodes|), entries, |nodes|);
  }

  /** A second `toJSON` call on the same network finds every node numbered
      by the first one, and writes what the corrected serializer writes. */
  lemma SecondCall(s: Store, nodes: seq<nat>, connections: seq<nat>, input: nat, output: nat, dropout: real)
    requires StoreOk(s) && IdsBelow(nodes, |s.nodes|) && IdsBelow(connections, |s.conns|)
    requires Distinct(nodes) && Closed(s, nodes, connections)
    ensures var t := IndexedUpTo(s, nodes, |nodes|);
            Serialized(t, nodes, connections, input, output, dropout)
              == SerializedFixed(s, nodes, connections, input, output, dropout)
  {
    var t := IndexedUpTo(s, nodes, |nodes|);
    Rewalk(s, nodes);
    AfterWalk(s, nodes, connections);
    IndexedFrame(s, nodes, |nodes|);
    NodesIgnoreIndex(s, t, nodes, |nodes|);
    SelfsSecondCall(t, nodes, |nodes|);
  }

  /** Walking a list without repeats a second time changes nothing. */
  lemma Rewalk(s: Store, nodes: seq<nat>)
    requires IdsBelow(nodes, |s.nodes|) && Distinct(nodes)
    ensures var t := IndexedUpTo(s, nodes, |nodes|);
            IndexedUpTo(t, nodes, |nodes|) == t
  {
    var t := IndexedUpTo(s, nodes, |nodes|);
    var u := IndexedUpTo(t, nodes, |nodes|);
    IndexedFrame(t, nodes, |nodes|);
    forall n | 0 <= n < |s.nodes|
      ensures u.nodes[n] == t.nodes[n]
    {
      RewalkNode(s, nodes, n);
    }
  }

  /** Node `n` is numbered the same by the second walk as by the first. */
  lemma RewalkNode(s: Store, nodes: seq<nat>, n: nat)
    requires IdsBelow(nodes, |s.nodes|) && Distinct(nodes) && n < |s.nodes|
    ensures var t := IndexedUpTo(s, nodes, |nodes|);
            n < |t.nodes| && n < |IndexedUpTo(t, nodes, |nodes|).nodes|
            && IndexedUpTo(t, nodes, |nodes|).nodes[n] == t.nodes[n]
  {
    var t := IndexedUpTo(s, nodes, |nodes|);
    IndexedFrame(t, nodes, |nodes|);
    if n in nodes {
      var j := IndexOf(nodes, n);
      IndexedDistinct(t, nodes, |nodes|, j);
      IndexedDistinct(s, nodes, |nodes|, j);
    } else {
      IndexKept(t, nodes, |nodes|, n);
    }
  }

  /** The node objects do not depend on `index`. */
  lemma {:induction false} NodesIgnoreIndex(s: Store, t: Store, nodes: seq<nat>, k: nat)
    requires IdsBelow(nodes, |s.nodes|) && |t.nodes| == |s.nodes| && k <= |nodes|
    requires forall n :: 0 <= n < |s.nodes| ==> t.nodes[n] == s.nodes[n].(index := t.nodes[n].index)
    ensures NodesJSON(t, nodes, k) == NodesJSON(s, nodes, k)
  {
    if k > 0 {
      NodesIgnoreIndex(s, t, nodes, k - 1);
      assert NodeToJSON(t.nodes[nodes[k - 1]]) == NodeToJSON(s.nodes[nodes[k - 1]]);
    }
  }

  /** In the second walk, the self entry of the node at position `k - 1`
      reads the positions of the first. */
  lemma SelfSecondStep(t: Store, nodes: seq<nat>, k: nat)
    requires StoreOk(t) && IdsBelow(nodes, |t.nodes|) && Distinct(nodes) && 0 < k <= |nodes| && Numbered(t, nodes)
    requires forall j :: 0 <= j < |nodes| ==> GaterIn(t.conns[t.nodes[nodes[j]].self].gater, nodes)
    ensures SelfsJSON(t, nodes, k - 1) == SelfsFixed(t, nodes, k - 1) ==> SelfsJSON(t, nodes, k) == SelfsFixed(t, nodes, k)
  {
    assert GaterIn(t.conns[t.nodes[nodes[k - 1]].self].gater, nodes);
    var v := IndexedUpTo(t, nodes, k);
    var n := nodes[k - 1];
    IndexedFrame(t, nodes, k);
    var g := t.conns[t.nodes[n].self].gater;
    if g.Some? {
      var p := IndexOf(nodes, g.value);
      IndexedDistinct(t, nodes, k, p);
    }
    assert SelfJSON(v, n, k - 1) == SelfJSON(t, n, k - 1);
  }

  /** In the second walk, every self entry reads the positions of the
      first. */
  lemma {:induction false} SelfsSecondCall(t: Store, nodes: seq<nat>, k: nat)
    requires StoreOk(t) && IdsBelow(nodes, |t.nodes|) && Distinct(nodes) && k <= |nodes| && Numbered(t, nodes)
    requires forall j :: 0 <= j < |nodes| ==> GaterIn(t.conns[t.nodes[nodes[j]].self].gater, nodes)
    ensures SelfsJSON(t, nodes, k) == SelfsFixed(t, nodes, k)
  {
    if k == 0 {
      assert SelfsJSON(t, nodes, 0) == [] == SelfsFixed(t, nodes, 0);
    } else {
      SelfsSecondCall(t, nodes, k - 1);
      SelfSecondStep(t, nodes, k);
    }
  }
}

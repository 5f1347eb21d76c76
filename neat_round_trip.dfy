// `Network.fromJSON(network.toJSON())` (Javascript/NeatJS/src/architecture/
// network.js, lines 519-551 and 983-1003) with the corrected serializer: on a
// network without repeated nodes, closed under its connections, whose
// connection list holds distinct pairs of distinct nodes, loading gives back
// the nodes, the weights and the gaters, every reference moved to the new
// arena positions.

module NeatRoundTrip {
  import opened NeatConnection
  import opened NeatNode
  import opened NeatSerial
  import opened NeatNetwork
  import opened NeatLoad

  /** Running the connection loop over `a + b` is running it over `a`, then
      over `b`. */
  lemma {:induction false} LoadConnsAppend(s: Store, f: NetworkFields, a: seq<ConnJSON>, b: seq<ConnJSON>, t: Store, g: NetworkFields)
    requires FieldsOk(s, f) && LoadConns(s, f, a) == Done((t, g))
    ensures FieldsOk(t, g) && LoadConns(s, f, a + b) == LoadConns(t, g, b)
    decreases |a|
  {
    if a == [] {
      assert a + b == b;
    } else {
      assert (a + b)[0] == a[0] && (a + b)[1..] == a[1..] + b;
      var r := LoadConn(s, f, a[0]);
      LoadConnsAppend(r.value.0, r.value.1, a[1..], b, t, g);
    }
  }

  /** The connection loop over one entry. */
  lemma LoadConnsOne(s: Store, f: NetworkFields, e: ConnJSON)
    requires FieldsOk(s, f)
    ensures LoadConns(s, f, [e]) == LoadConn(s, f, e)
  {
    assert [e][1..] == [];
  }

  /** The node loop gives the `k`-th new node a zero, ungated
      self-connection. */
  lemma {:induction false} PushedSelf(s: Store, js: seq<NodeJSON>, k: nat)
    requires StoreOk(s) && k < |js|
    ensures var t := PushNodes(s, js);
            && t.conns[|s.conns| + k].weight == 0.0 && t.conns[|s.conns| + k].gater.None?
            && t.nodes[|s.nodes| + k].self == |s.conns| + k && t.nodes[|s.nodes| + k].outs == []
  {
    Pushed(s, js, k);
    if k < |js| - 1 {
      PushedSelf(s, js[..|js| - 1], k);
    }
  }

  /** What connecting an entry's ends leaves alone: the `self` of every
      node; for a pair, every older connection and every out-list but the
      source's, which gains the new connection; for a self entry, every
      node and every other connection. */
  lemma AttachFrame(s: Store, f: NetworkFields, a: nat, b: nat, weight: real)
    requires FieldsOk(s, f) && a < |s.nodes| && b < |s.nodes| && (a != b ==> !ProjectsTo(s, a, b))
    ensures var (t, _, c) := Attach(s, f, a, b, weight);
            && (forall n :: 0 <= n < |s.nodes| ==> t.nodes[n].self == s.nodes[n].self)
            && (a != b ==> && |t.conns| == |s.conns| + 1
                           && (forall x :: 0 <= x < |s.conns| ==> t.conns[x] == s.conns[x])
                           && t.nodes[a].outs == s.nodes[a].outs + [c]
                           && (forall n :: 0 <= n < |s.nodes| && n != a ==> t.nodes[n].outs == s.nodes[n].outs))
            && (a == b ==> && t.nodes == s.nodes && |t.conns| == |s.conns|
                           && (forall x :: 0 <= x < |s.conns| && x != c ==> t.conns[x] == s.conns[x]))
  {
  }

  /** Gating leaves every node's `self` and out-list alone. */
  lemma GatedFrame(s: Store, f: NetworkFields, g: nat, c: nat)
    requires FieldsOk(s, f) && g in f.nodes && c < |s.conns|
    ensures var t := Gated(s, f, g, c).value.0;
            forall n :: 0 <= n < |s.nodes| ==> t.nodes[n].self == s.nodes[n].self && t.nodes[n].outs == s.nodes[n].outs
  {
  }

  /** A self entry of a node whose self-connection is ungated sets that
      connection's weight and gater, and changes nothing else the round
      trip looks at. */
  lemma SelfEntryStep(s: Store, f: NetworkFields, e: ConnJSON, a: nat) returns (t: Store, g: NetworkFields)
    requires FieldsOk(s, f) && Resolve(f.nodes, e.from) == Some(a) && Resolve(f.nodes, e.to) == Some(a)
    requires e.gater.Null? || Resolve(f.nodes, e.gater).Some?
    requires s.conns[s.nodes[a].self].gater.None?
    ensures LoadConn(s, f, e) == Done((t, g))
    ensures var c := s.nodes[a].self;
            && |t.nodes| == |s.nodes| && |t.conns| == |s.conns| && g.nodes == f.nodes && g.connections == f.connections
            && (forall n :: 0 <= n < |s.nodes| ==> t.nodes[n].self == s.nodes[n].self && t.nodes[n].outs == s.nodes[n].outs)
            && (forall x :: 0 <= x < |s.conns| && x != c ==> t.conns[x] == s.conns[x])
            && t.conns[c].weight == e.weight && t.conns[c].gater == Resolve(f.nodes, e.gater)
  {
    assert NodeOk(s.nodes[a], |s.conns|);
    AttachFrame(s, f, a, a, e.weight);
    var (t0, f1, c) := Attach(s, f, a, a, e.weight);
    if !e.gater.Null? {
      GatedFrame(t0, f1, Resolve(f.nodes, e.gater).value, c);
    }
    t, g := LoadConn(s, f, e).value.0, LoadConn(s, f, e).value.1;
  }

  /** An entry joining two distinct nodes not yet connected appends one
      connection with the entry's ends, weight and gater, files it at the
      end of the source's out-list and of `connections`, and changes no
      older connection. */
  lemma PairEntryStep(s: Store, f: NetworkFields, e: ConnJSON, a: nat, b: nat) returns (t: Store, g: NetworkFields)
    requires FieldsOk(s, f) && Resolve(f.nodes, e.from) == Some(a) && Resolve(f.nodes, e.to) == Some(b)
    requires a != b && !ProjectsTo(s, a, b)
    requires e.gater.Null? || Resolve(f.nodes, e.gater).Some?
    ensures LoadConn(s, f, e) == Done((t, g))
    ensures var c := |s.conns|;
            && |t.nodes| == |s.nodes| && |t.conns| == c + 1 && g.nodes == f.nodes && g.connections == f.connections + [c]
            && (forall x :: 0 <= x < c ==> t.conns[x] == s.conns[x])
            && t.conns[c].from == a && t.conns[c].to == b
            && t.conns[c].weight == e.weight && t.conns[c].gater == Resolve(f.nodes, e.gater)
            && (forall n :: 0 <= n < |s.nodes| ==> t.nodes[n].self == s.nodes[n].self)
            && t.nodes[a].outs == s.nodes[a].outs + [c]
            && (forall n :: 0 <= n < |s.nodes| && n != a ==> t.nodes[n].outs == s.nodes[n].outs)
  {
    AttachFrame(s, f, a, b, e.weight);
    var (t0, f1, c) := Attach(s, f, a, b, e.weight);
    if !e.gater.Null? {
      GatedFrame(t0, f1, Resolve(f.nodes, e.gater).value, c);
    }
    t, g := LoadConn(s, f, e).value.0, LoadConn(s, f, e).value.1;
  }

  // ---------------------------------------------------------------------
  // How a loaded connection matches the entry it was read from

  /** The connection `c` is what loading the entry `e` makes of it: its
      ends and gater are the nodes the references resolve to, and it has
      the entry's weight. */
  predicate EntryLoaded(c: Connection, e: ConnJSON, loaded: seq<nat>)
  {
    && Resolve(loaded, e.from) == Some(c.from) && Resolve(loaded, e.to) == Some(c.to)
    && c.weight == e.weight && c.gater == Resolve(loaded, e.gater)
  }

  /** The self-connection `c` after the self entries `es` of its node
      (none, or one): zero and ungated when nothing was written, otherwise
      with the entry's weight and resolved gater. */
  predicate SelfLoaded(c: Connection, es: seq<ConnJSON>, loaded: seq<nat>)
  {
    if es == [] then c.weight == 0.0 && c.gater.None? else c.weight == es[0].weight && c.gater == Resolve(loaded, es[0].gater)
  }

  /** `ids` holds the positions `base .. base + n - 1`, in order. */
  predicate Ranged(ids: seq<nat>, base: nat, n: nat)
  {
    |ids| == n && forall k :: 0 <= k < n ==> ids[k] == base + k
  }

  /** Every self-connection gater of `nodes` is one of them. */
  predicate SelvesClosed(w: Store, nodes: seq<nat>)
    requires StoreOk(w) && IdsBelow(nodes, |w.nodes|)
  {
    forall j :: 0 <= j < |nodes| ==> GaterIn(w.conns[w.nodes[nodes[j]].self].gater, nodes)
  }

  // ---------------------------------------------------------------------
  // The self entries

  /** The loaded arena `t` and fields `g` after the self entries of the
      first `k` nodes of the walked arena `w`: the new nodes sit at `base`,
      their self-connections at `c0`, the first `k` of those carry their
      entries and the rest are still zero and ungated. */
  predicate SelvesLoaded(w: Store, nodes: seq<nat>, t: Store, g: NetworkFields, base: nat, c0: nat, k: nat)
    requires StoreOk(w) && IdsBelow(nodes, |w.nodes|)
  {
    && |t.nodes| == base + |nodes| && |t.conns| == c0 + |nodes| && k <= |nodes|
    && g.nodes == Range(base, |nodes|) && g.connections == []
    && (forall j :: 0 <= j < |nodes| ==> t.nodes[g.nodes[j]].self == c0 + j && t.nodes[g.nodes[j]].outs == [])
    && (forall x :: c0 <= x < c0 + k ==> SelfLoaded(t.conns[x], SelfJSON(w, nodes[x - c0], x - c0), g.nodes))
    && (forall x :: c0 + k <= x < c0 + |nodes| ==> t.conns[x].weight == 0.0 && t.conns[x].gater.None?)
  }

  /** Loading the self entry of the node at position `k - 1`. */
  lemma SelvesStep(w: Store, nodes: seq<nat>, t: Store, g: NetworkFields, base: nat, c0: nat, k: nat)
    returns (t1: Store, g1: NetworkFields)
    requires StoreOk(w) && IdsBelow(nodes, |w.nodes|) && SelvesClosed(w, nodes) && Numbered(w, nodes) && 0 < k <= |nodes|
    requires FieldsOk(t, g) && SelvesLoaded(w, nodes, t, g, base, c0, k - 1)
    ensures LoadConns(t, g, SelfJSON(w, nodes[k - 1], k - 1)) == Done((t1, g1))
    ensures SelvesLoaded(w, nodes, t1, g1, base, c0, k)
  {
    var es := SelfJSON(w, nodes[k - 1], k - 1);
    if es == [] {
      t1, g1 := t, g;
    } else {
      SelfRefs(w, nodes, k - 1);
      assert RefsIn(es[0], |nodes|);
      assert es == [es[0]] && es[1..] == [];
      t1, g1 := SelfWritten(w, nodes, t, g, base, c0, k, es[0]);
    }
  }

  /** The self entry `e` of the node at position `k - 1`. */
  lemma SelfWritten(w: Store, nodes: seq<nat>, t: Store, g: NetworkFields, base: nat, c0: nat, k: nat, e: ConnJSON)
    returns (t1: Store, g1: NetworkFields)
    requires StoreOk(w) && IdsBelow(nodes, |w.nodes|) && 0 < k <= |nodes|
    requires FieldsOk(t, g) && SelvesLoaded(w, nodes, t, g, base, c0, k - 1)
    requires SelfJSON(w, nodes[k - 1], k - 1) == [e] && RefsIn(e, |nodes|)
    ensures LoadConn(t, g, e) == Done((t1, g1))
    ensures SelvesLoaded(w, nodes, t1, g1, base, c0, k)
  {
    var a := g.nodes[k - 1];
    assert Resolve(g.nodes, e.from) == Some(a) && Resolve(g.nodes, e.to) == Some(a);
    assert t.nodes[a].self == c0 + k - 1;
    t1, g1 := SelfEntryStep(t, g, e, a);
    forall j | 0 <= j < |nodes|
      ensures t1.nodes[g1.nodes[j]].self == c0 + j && t1.nodes[g1.nodes[j]].outs == []
    {
      assert t.nodes[g.nodes[j]].self == c0 + j;
    }
    var _, _ := SelfConns(w, nodes, t, g, base, c0, k, e);
  }

  /** The self-connections after the self entry `e` of the node at
      position `k - 1`. */
  lemma SelfConns(w: Store, nodes: seq<nat>, t: Store, g: NetworkFields, base: nat, c0: nat, k: nat, e: ConnJSON)
    returns (t1: Store, g1: NetworkFields)
    requires StoreOk(w) && IdsBelow(nodes, |w.nodes|) && 0 < k <= |nodes|
    requires FieldsOk(t, g) && SelvesLoaded(w, nodes, t, g, base, c0, k - 1)
    requires SelfJSON(w, nodes[k - 1], k - 1) == [e] && RefsIn(e, |nodes|)
    ensures LoadConn(t, g, e) == Done((t1, g1))
    ensures |t1.conns| == |t.conns| && g1.nodes == g.nodes
    ensures forall x :: c0 <= x < c0 + k ==> SelfLoaded(t1.conns[x], SelfJSON(w, nodes[x - c0], x - c0), g1.nodes)
  {
    var a := g.nodes[k - 1];
    assert Resolve(g.nodes, e.from) == Some(a) && Resolve(g.nodes, e.to) == Some(a);
    assert t.nodes[a].self == c0 + k - 1;
    t1, g1 := SelfEntryStep(t, g, e, a);
    forall x | c0 <= x < c0 + k
      ensures SelfLoaded(t1.conns[x], SelfJSON(w, nodes[x - c0], x - c0), g1.nodes)
    {
      if x < c0 + k - 1 {
        assert t1.conns[x] == t.conns[x];
      }
    }
  }

  /** Loading the self entries of the first `k` nodes. */
  lemma {:induction false} SelvesPhase(w: Store, nodes: seq<nat>, t: Store, g: NetworkFields, base: nat, c0: nat, k: nat)
    returns (t1: Store, g1: NetworkFields)
    requires StoreOk(w) && IdsBelow(nodes, |w.nodes|) && SelvesClosed(w, nodes) && Numbered(w, nodes) && k <= |nodes|
    requires FieldsOk(t, g) && SelvesLoaded(w, nodes, t, g, base, c0, 0)
    ensures LoadConns(t, g, SelfsFixed(w, nodes, k)) == Done((t1, g1))
    ensures SelvesLoaded(w, nodes, t1, g1, base, c0, k)
    decreases k, 1
  {
    if k == 0 {
      assert SelfsFixed(w, nodes, 0) == [];
      t1, g1 := t, g;
    } else {
      t1, g1 := SelvesMore(w, nodes, t, g, base, c0, k);
    }
  }

  /** The induction step of `SelvesPhase`. */
  lemma {:induction false} SelvesMore(w: Store, nodes: seq<nat>, t: Store, g: NetworkFields, base: nat, c0: nat, k: nat)
    returns (t1: Store, g1: NetworkFields)
    requires StoreOk(w) && IdsBelow(nodes, |w.nodes|) && SelvesClosed(w, nodes) && Numbered(w, nodes) && 0 < k <= |nodes|
    requires FieldsOk(t, g) && SelvesLoaded(w, nodes, t, g, base, c0, 0)
    ensures LoadConns(t, g, SelfsFixed(w, nodes, k)) == Done((t1, g1))
    ensures SelvesLoaded(w, nodes, t1, g1, base, c0, k)
    decreases k, 0
  {
    var t0, g0 := SelvesPhase(w, nodes, t, g, base, c0, k - 1);
    t1, g1 := SelvesNext(w, nodes, t, g, base, c0, k, t0, g0);
  }

  /** The self entries of the first `k` nodes, from those of the first
      `k - 1`. */
  lemma SelvesNext(w: Store, nodes: seq<nat>, t: Store, g: NetworkFields, base: nat, c0: nat, k: nat, t0: Store, g0: NetworkFields)
    returns (t1: Store, g1: NetworkFields)
    requires StoreOk(w) && IdsBelow(nodes, |w.nodes|) && SelvesClosed(w, nodes) && Numbered(w, nodes) && 0 < k <= |nodes|
    requires FieldsOk(t, g) && LoadConns(t, g, SelfsFixed(w, nodes, k - 1)) == Done((t0, g0))
    requires SelvesLoaded(w, nodes, t0, g0, base, c0, k - 1)
    ensures LoadConns(t, g, SelfsFixed(w, nodes, k)) == Done((t1, g1))
    ensures SelvesLoaded(w, nodes, t1, g1, base, c0, k)
  {
    LoadConnsAppend(t, g, SelfsFixed(w, nodes, k - 1), SelfJSON(w, nodes[k - 1], k - 1), t0, g0);
    assert SelfsFixed(w, nodes, k) == SelfsFixed(w, nodes, k - 1) + SelfJSON(w, nodes[k - 1], k - 1);
    t1, g1 := SelvesStep(w, nodes, t0, g0, base, c0, k);
  }

  // ---------------------------------------------------------------------
  // The connection entries

  /** No connection of `connections` joins a node to itself, and no two of
      them join the same pair: what `connect` keeps true of the
      `connections` list of a network. */
  predicate SimplePairs(s: Store, connections: seq<nat>)
    requires IdsBelow(connections, |s.conns|)
  {
    && (forall q :: 0 <= q < |connections| ==> s.conns[connections[q]].from != s.conns[connections[q]].to)
    && (forall p, q :: 0 <= p < q < |connections| ==>
          s.conns[connections[p]].from != s.conns[connections[q]].from || s.conns[connections[p]].to != s.conns[connections[q]].to)
  }

  /** The ends and the gater of every connection of `connections` are nodes
      of `nodes`. */
  predicate PairsClosed(w: Store, nodes: seq<nat>, connections: seq<nat>)
    requires IdsBelow(connections, |w.conns|)
  {
    forall q :: 0 <= q < |connections| ==>
      w.conns[connections[q]].from in nodes && w.conns[connections[q]].to in nodes && GaterIn(w.conns[connections[q]].gater, nodes)
  }

  /** The loaded arena `t` and fields `g` after the entries of the first `k`
      connections: the self-connections keep what their entries wrote, the
      `k` new connections follow them and match their entries, and a new
      node's out-list holds only new connections leaving it. */
  predicate PairsLoaded(w: Store, nodes: seq<nat>, connections: seq<nat>, t: Store, g: NetworkFields, base: nat, c0: nat, k: nat)
    requires StoreOk(w) && IdsBelow(nodes, |w.nodes|) && IdsBelow(connections, |w.conns|)
  {
    var c1 := c0 + |nodes|;
    && |t.nodes| == base + |nodes| && |t.conns| == c1 + k && k <= |connections|
    && Ranged(g.nodes, base, |nodes|) && Ranged(g.connections, c1, k)
    && (forall j :: 0 <= j < |nodes| ==> t.nodes[g.nodes[j]].self == c0 + j)
    && (forall x :: c0 <= x < c1 ==> SelfLoaded(t.conns[x], SelfJSON(w, nodes[x - c0], x - c0), g.nodes))
    && (forall x :: c1 <= x < c1 + k ==> EntryLoaded(t.conns[x], ConnEntry(w, connections[x - c1]), g.nodes))
    && (forall j, i :: 0 <= j < |nodes| && 0 <= i < |t.nodes[g.nodes[j]].outs| ==>
          c1 <= t.nodes[g.nodes[j]].outs[i] < c1 + k && t.conns[t.nodes[g.nodes[j]].outs[i]].from == g.nodes[j])
  }

  /** Once every self entry is loaded, no connection entry is. */
  lemma PairsStart(w: Store, nodes: seq<nat>, connections: seq<nat>, t: Store, g: NetworkFields, base: nat, c0: nat)
    requires StoreOk(w) && IdsBelow(nodes, |w.nodes|) && IdsBelow(connections, |w.conns|)
    requires SelvesLoaded(w, nodes, t, g, base, c0, |nodes|)
    ensures PairsLoaded(w, nodes, connections, t, g, base, c0, 0)
  {
  }

  /** An out-connection of a loaded node, under `PairsLoaded`: a loaded
      connection entry, leaving that node. */
  lemma LoadedOut(w: Store, nodes: seq<nat>, connections: seq<nat>, t: Store, g: NetworkFields, base: nat, c0: nat, k: nat, j: nat, i: nat)
    returns (x: nat, p: nat)
    requires StoreOk(w) && IdsBelow(nodes, |w.nodes|) && IdsBelow(connections, |w.conns|)
    requires PairsLoaded(w, nodes, connections, t, g, base, c0, k) && j < |nodes| && i < |t.nodes[g.nodes[j]].outs|
    ensures x == t.nodes[g.nodes[j]].outs[i] && x == c0 + |nodes| + p && p < k && t.conns[x].from == g.nodes[j]
    ensures EntryLoaded(t.conns[x], ConnEntry(w, connections[p]), g.nodes)
  {
    x := t.nodes[g.nodes[j]].outs[i];
    p := x - c0 - |nodes|;
  }

  /** No out-connection of the source of `connections[k - 1]` reaches its
      target before its own entry is loaded. */
  lemma OutNotTo(w: Store, nodes: seq<nat>, connections: seq<nat>, t: Store, g: NetworkFields, base: nat, c0: nat, k: nat,
                 j1: nat, j2: nat, i: nat)
    requires StoreOk(w) && IdsBelow(nodes, |w.nodes|) && IdsBelow(connections, |w.conns|) && Numbered(w, nodes)
    requires PairsClosed(w, nodes, connections) && SimplePairs(w, connections) && 0 < k <= |connections|
    requires PairsLoaded(w, nodes, connections, t, g, base, c0, k - 1)
    requires j1 < |nodes| && nodes[j1] == w.conns[connections[k - 1]].from
    requires j2 < |nodes| && nodes[j2] == w.conns[connections[k - 1]].to
    requires i < |t.nodes[g.nodes[j1]].outs|
    ensures t.conns[t.nodes[g.nodes[j1]].outs[i]].to != g.nodes[j2]
  {
    var x, p := LoadedOut(w, nodes, connections, t, g, base, c0, k - 1, j1, i);
    ConnRefs(w, nodes, connections[p]);
  }

  /** The entry of the connection at position `k - 1` joins two distinct
      loaded nodes that no earlier entry joined. */
  lemma NotProjecting(w: Store, nodes: seq<nat>, connections: seq<nat>, t: Store, g: NetworkFields, base: nat, c0: nat, k: nat)
    returns (a: nat, b: nat)
    requires StoreOk(w) && IdsBelow(nodes, |w.nodes|) && IdsBelow(connections, |w.conns|) && Numbered(w, nodes)
    requires PairsClosed(w, nodes, connections) && SimplePairs(w, connections) && 0 < k <= |connections|
    requires FieldsOk(t, g) && PairsLoaded(w, nodes, connections, t, g, base, c0, k - 1)
    ensures var e := ConnEntry(w, connections[k - 1]);
            && Resolve(g.nodes, e.from) == Some(a) && Resolve(g.nodes, e.to) == Some(b)
            && (e.gater.Null? || Resolve(g.nodes, e.gater).Some?)
            && a != b && !ProjectsTo(t, a, b)
  {
    var e := ConnEntry(w, connections[k - 1]);
    ConnRefs(w, nodes, connections[k - 1]);
    a, b := g.nodes[e.from.i], g.nodes[e.to.i];
    forall i | 0 <= i < |t.nodes[a].outs|
      ensures t.conns[t.nodes[a].outs[i]].to != b
    {
      OutNotTo(w, nodes, connections, t, g, base, c0, k, e.from.i, e.to.i, i);
    }
  }

  /** A prefix of `s` is the one before it plus one element. */
  lemma PrefixSnoc<T>(s: seq<T>, k: nat)
    requires 0 < k <= |s|
    ensures s[..k] == s[..k - 1] + [s[k - 1]]
  {
  }

  /** The next position extends a run of positions. */
  lemma RangedAppend(ids: seq<nat>, base: nat, n: nat, id: nat)
    requires Ranged(ids, base, n) && id == base + n
    ensures Ranged(ids + [id], base, n + 1)
  {
  }

  /** Loading the entry of the connection at position `k - 1`. */
  lemma PairWritten(w: Store, nodes: seq<nat>, connections: seq<nat>, t: Store, g: NetworkFields, base: nat, c0: nat, k: nat)
    returns (t1: Store, g1: NetworkFields)
    requires StoreOk(w) && IdsBelow(nodes, |w.nodes|) && IdsBelow(connections, |w.conns|) && Numbered(w, nodes)
    requires PairsClosed(w, nodes, connections) && SimplePairs(w, connections) && 0 < k <= |connections|
    requires FieldsOk(t, g) && PairsLoaded(w, nodes, connections, t, g, base, c0, k - 1)
    ensures LoadConn(t, g, ConnEntry(w, connections[k - 1])) == Done((t1, g1))
    ensures PairsLoaded(w, nodes, connections, t1, g1, base, c0, k)
  {
    var e := ConnEntry(w, connections[k - 1]);
    var a, b := NotProjecting(w, nodes, connections, t, g, base, c0, k);
    t1, g1 := PairEntryStep(t, g, e, a, b);
    RangedAppend(g.connections, c0 + |nodes|, k - 1, |t.conns|);
    var _, _ := PairEntries(w, nodes, connections, t, g, base, c0, k);
    var _, _ := PairOuts(w, nodes, connections, t, g, base, c0, k);
  }

  /** The connections loaded so far, after the entry at position `k - 1`. */
  lemma PairEntries(w: Store, nodes: seq<nat>, connections: seq<nat>, t: Store, g: NetworkFields, base: nat, c0: nat, k: nat)
    returns (t1: Store, g1: NetworkFields)
    requires StoreOk(w) && IdsBelow(nodes, |w.nodes|) && IdsBelow(connections, |w.conns|) && Numbered(w, nodes)
    requires PairsClosed(w, nodes, connections) && SimplePairs(w, connections) && 0 < k <= |connections|
    requires FieldsOk(t, g) && PairsLoaded(w, nodes, connections, t, g, base, c0, k - 1)
    ensures LoadConn(t, g, ConnEntry(w, connections[k - 1])) == Done((t1, g1))
    ensures |t1.nodes| == |t.nodes| && |t1.conns| == |t.conns| + 1 && g1.nodes == g.nodes
    ensures forall x :: c0 + |nodes| <= x < c0 + |nodes| + k ==>
              EntryLoaded(t1.conns[x], ConnEntry(w, connections[x - c0 - |nodes|]), g1.nodes)
  {
    var e := ConnEntry(w, connections[k - 1]);
    var a, b := NotProjecting(w, nodes, connections, t, g, base, c0, k);
    t1, g1 := PairEntryStep(t, g, e, a, b);
    forall x | c0 + |nodes| <= x < c0 + |nodes| + k
      ensures EntryLoaded(t1.conns[x], ConnEntry(w, connections[x - c0 - |nodes|]), g1.nodes)
    {
      if x < c0 + |nodes| + k - 1 {
        assert t1.conns[x] == t.conns[x];
      }
    }
  }

  /** The out-lists of the loaded nodes, after the entry at position
      `k - 1`. */
  lemma PairOuts(w: Store, nodes: seq<nat>, connections: seq<nat>, t: Store, g: NetworkFields, base: nat, c0: nat, k: nat)
    returns (t1: Store, g1: NetworkFields)
    requires StoreOk(w) && IdsBelow(nodes, |w.nodes|) && IdsBelow(connections, |w.conns|) && Numbered(w, nodes)
    requires PairsClosed(w, nodes, connections) && SimplePairs(w, connections) && 0 < k <= |connections|
    requires FieldsOk(t, g) && PairsLoaded(w, nodes, connections, t, g, base, c0, k - 1)
    ensures LoadConn(t, g, ConnEntry(w, connections[k - 1])) == Done((t1, g1))
    ensures |t1.nodes| == |t.nodes| && |t1.conns| == |t.conns| + 1 && g1.nodes == g.nodes
    ensures forall j, i :: 0 <= j < |nodes| && 0 <= i < |t1.nodes[g1.nodes[j]].outs| ==>
              c0 + |nodes| <= t1.nodes[g1.nodes[j]].outs[i] < c0 + |nodes| + k
              && t1.conns[t1.nodes[g1.nodes[j]].outs[i]].from == g1.nodes[j]
  {
    var e := ConnEntry(w, connections[k - 1]);
    var a, b := NotProjecting(w, nodes, connections, t, g, base, c0, k);
    t1, g1 := PairEntryStep(t, g, e, a, b);
    forall j, i | 0 <= j < |nodes| && 0 <= i < |t1.nodes[g1.nodes[j]].outs|
      ensures c0 + |nodes| <= t1.nodes[g1.nodes[j]].outs[i] < c0 + |nodes| + k
              && t1.conns[t1.nodes[g1.nodes[j]].outs[i]].from == g1.nodes[j]
    {
      var n := g.nodes[j];
      if n != a || i < |t.nodes[n].outs| {
        var x := t.nodes[n].outs[i];
        assert t1.nodes[n].outs[i] == x;
        assert x < |t.conns| && t.conns[x].from == n;
        assert t1.conns[x] == t.conns[x];
      } else {
        assert t1.nodes[n].outs[i] == |t.conns|;
      }
    }
  }

  /** Loading the entries `es` of the first `k` connections. */
  lemma {:induction false} PairsPhase(w: Store, nodes: seq<nat>, connections: seq<nat>, es: seq<ConnJSON>, t: Store, g: NetworkFields,
                                      base: nat, c0: nat, k: nat)
    returns (t1: Store, g1: NetworkFields)
    requires StoreOk(w) && IdsBelow(nodes, |w.nodes|) && IdsBelow(connections, |w.conns|) && Numbered(w, nodes)
    requires PairsClosed(w, nodes, connections) && SimplePairs(w, connections) && es == ConnsJSON(w, connections) && k <= |es|
    requires FieldsOk(t, g) && PairsLoaded(w, nodes, connections, t, g, base, c0, 0)
    ensures LoadConns(t, g, es[..k]) == Done((t1, g1))
    ensures PairsLoaded(w, nodes, connections, t1, g1, base, c0, k)
    decreases k, 1
  {
    if k == 0 {
      assert es[..0] == [];
      t1, g1 := t, g;
    } else {
      t1, g1 := PairsMore(w, nodes, connections, es, t, g, base, c0, k);
    }
  }

  /** The induction step of `PairsPhase`. */
  lemma {:induction false} PairsMore(w: Store, nodes: seq<nat>, connections: seq<nat>, es: seq<ConnJSON>, t: Store, g: NetworkFields,
                                     base: nat, c0: nat, k: nat)
    returns (t1: Store, g1: NetworkFields)
    requires StoreOk(w) && IdsBelow(nodes, |w.nodes|) && IdsBelow(connections, |w.conns|) && Numbered(w, nodes)
    requires PairsClosed(w, nodes, connections) && SimplePairs(w, connections) && es == ConnsJSON(w, connections) && 0 < k <= |es|
    requires FieldsOk(t, g) && PairsLoaded(w, nodes, connections, t, g, base, c0, 0)
    ensures LoadConns(t, g, es[..k]) == Done((t1, g1))
    ensures PairsLoaded(w, nodes, connections, t1, g1, base, c0, k)
    decreases k, 0
  {
    var t0, g0 := PairsPhase(w, nodes, connections, es, t, g, base, c0, k - 1);
    t1, g1 := PairsNext(w, nodes, connections, es, t, g, base, c0, k, t0, g0);
  }

  /** The entries of the first `k` connections, from those of the first
      `k - 1`. */
  lemma PairsNext(w: Store, nodes: seq<nat>, connections: seq<nat>, es: seq<ConnJSON>, t: Store, g: NetworkFields,
                  base: nat, c0: nat, k: nat, t0: Store, g0: NetworkFields)
    returns (t1: Store, g1: NetworkFields)
    requires StoreOk(w) && IdsBelow(nodes, |w.nodes|) && IdsBelow(connections, |w.conns|) && Numbered(w, nodes)
    requires PairsClosed(w, nodes, connections) && SimplePairs(w, connections) && es == ConnsJSON(w, connections) && 0 < k <= |es|
    requires FieldsOk(t, g) && LoadConns(t, g, es[..k - 1]) == Done((t0, g0))
    requires PairsLoaded(w, nodes, connections, t0, g0, base, c0, k - 1)
    ensures LoadConns(t, g, es[..k]) == Done((t1, g1))
    ensures PairsLoaded(w, nodes, connections, t1, g1, base, c0, k)
  {
    LoadConnsAppend(t, g, es[..k - 1], [es[k - 1]], t0, g0);
    PrefixSnoc(es, k);
    t1, g1 := PairWritten(w, nodes, connections, t0, g0, base, c0, k);
    LoadConnsOne(t0, g0, es[k - 1]);
  }

  // ---------------------------------------------------------------------
  // The whole load

  /** Before any entry: the pushed nodes and their zero self-connections. */
  lemma SelvesStart(w: Store, nodes: seq<nat>, s0: Store, f0: NetworkFields, json: NetworkJSON)
    requires StoreOk(w) && IdsBelow(nodes, |w.nodes|) && FieldsOk(s0, f0) && |json.nodes| == |nodes|
    ensures FieldsOk(PushNodes(s0, json.nodes), Reset(f0, |s0.nodes|, json))
    ensures SelvesLoaded(w, nodes, PushNodes(s0, json.nodes), Reset(f0, |s0.nodes|, json), |s0.nodes|, |s0.conns|, 0)
  {
    var p := PushNodes(s0, json.nodes);
    var r := Reset(f0, |s0.nodes|, json);
    assert IdsBelow(r.nodes, |p.nodes|) && IdsBelow(f0.gates, |p.conns|) && IdsBelow(f0.selfconns, |p.conns|);
    assert Ranged(r.nodes, |s0.nodes|, |nodes|);
    PushedFresh(s0, json.nodes, r.nodes);
    PushedZero(s0, json.nodes);
  }

  /** The node loop's new nodes have no out-connections yet, and own the
      new connections in order. */
  lemma PushedFresh(s: Store, js: seq<NodeJSON>, ids: seq<nat>)
    requires StoreOk(s) && Ranged(ids, |s.nodes|, |js|)
    ensures forall j :: 0 <= j < |js| ==>
              PushNodes(s, js).nodes[ids[j]].self == |s.conns| + j && PushNodes(s, js).nodes[ids[j]].outs == []
  {
    forall j | 0 <= j < |js|
      ensures PushNodes(s, js).nodes[ids[j]].self == |s.conns| + j && PushNodes(s, js).nodes[ids[j]].outs == []
    {
      assert ids[j] == |s.nodes| + j;
      PushedSelf(s, js, j);
    }
  }

  /** The node loop's new connections are zero and ungated. */
  lemma PushedZero(s: Store, js: seq<NodeJSON>)
    requires StoreOk(s)
    ensures forall x :: |s.conns| <= x < |s.conns| + |js| ==>
              PushNodes(s, js).conns[x].weight == 0.0 && PushNodes(s, js).conns[x].gater.None?
  {
    forall x | |s.conns| <= x < |s.conns| + |js|
      ensures PushNodes(s, js).conns[x].weight == 0.0 && PushNodes(s, js).conns[x].gater.None?
    {
      var k := x - |s.conns|;
      PushedSelf(s, js, k);
      assert |s.conns| + k == x;
    }
  }

  /** Loading the entries the corrected serializer writes for `nodes` and
      `connections` of the walked arena `w`: the self entries, then the
      connection entries, all go through. */
  lemma LoadsBack(w: Store, nodes: seq<nat>, connections: seq<nat>, s0: Store, f0: NetworkFields, json: NetworkJSON)
    returns (t: Store, g: NetworkFields)
    requires StoreOk(w) && IdsBelow(nodes, |w.nodes|) && IdsBelow(connections, |w.conns|) && Numbered(w, nodes)
    requires SelvesClosed(w, nodes) && PairsClosed(w, nodes, connections) && SimplePairs(w, connections)
    requires FieldsOk(s0, f0) && |json.nodes| == |nodes|
    requires json.connections == SelfsFixed(w, nodes, |nodes|) + ConnsJSON(w, connections)
    ensures LoadNet(s0, f0, json) == Done((t, g))
    ensures PairsLoaded(w, nodes, connections, t, g, |s0.nodes|, |s0.conns|, |connections|)
  {
    var p := PushNodes(s0, json.nodes);
    var r := Reset(f0, |s0.nodes|, json);
    SelvesStart(w, nodes, s0, f0, json);
    var t1, g1 := SelvesPhase(w, nodes, p, r, |s0.nodes|, |s0.conns|, |nodes|);
    PairsStart(w, nodes, connections, t1, g1, |s0.nodes|, |s0.conns|);
    var es := ConnsJSON(w, connections);
    t, g := PairsPhase(w, nodes, connections, es, t1, g1, |s0.nodes|, |s0.conns|, |connections|);
    assert es[..|connections|] == es;
    LoadConnsAppend(p, r, SelfsFixed(w, nodes, |nodes|), es, t1, g1);
  }

  // ---------------------------------------------------------------------
  // The round trip, in the terms of the original network

  /** With no repeats, the first position of the node at position `i` is
      `i`. */
  lemma IndexOfDistinct(nodes: seq<nat>, i: nat)
    requires Distinct(nodes) && i < |nodes|
    ensures IndexOf(nodes, nodes[i]) == i
  {
  }

  /** The loaded node standing for the node `n` of `nodes`. */
  function MovedTo(nodes: seq<nat>, loaded: seq<nat>, n: nat): nat
    requires n in nodes && |loaded| == |nodes|
  {
    loaded[IndexOf(nodes, n)]
  }

  /** The loaded gater standing for the gater `g`. */
  function MovedGater(nodes: seq<nat>, loaded: seq<nat>, g: Option<nat>): Option<nat>
    requires GaterIn(g, nodes) && |loaded| == |nodes|
  {
    if g.None? then None else Some(MovedTo(nodes, loaded, g.value))
  }

  /** The loaded self-connection `d` of a node whose self-connection was
      `c`: the same weight, and the moved gater unless the weight is 0, in
      which case no entry was written and `d` is ungated. */
  predicate SelfRestored(c: Connection, d: Connection, nodes: seq<nat>, loaded: seq<nat>)
    requires GaterIn(c.gater, nodes) && |loaded| == |nodes|
  {
    d.weight == c.weight && d.gater == if c.weight == 0.0 then None else MovedGater(nodes, loaded, c.gater)
  }

  /** The loaded connection `d` of the connection `c`: the moved ends and
      gater, and the same weight. */
  predicate ConnRestored(c: Connection, d: Connection, nodes: seq<nat>, loaded: seq<nat>)
    requires c.from in nodes && c.to in nodes && GaterIn(c.gater, nodes) && |loaded| == |nodes|
  {
    && d.from == MovedTo(nodes, loaded, c.from) && d.to == MovedTo(nodes, loaded, c.to)
    && d.weight == c.weight && d.gater == MovedGater(nodes, loaded, c.gater)
  }

  /** After the whole load, the self-connection of the loaded node at
      position `j` restores that of `nodes[j]` in the walked arena. */
  lemma SelfRestoredOf(w: Store, nodes: seq<nat>, connections: seq<nat>, t: Store, g: NetworkFields, base: nat, c0: nat, j: nat)
    requires StoreOk(w) && IdsBelow(nodes, |w.nodes|) && IdsBelow(connections, |w.conns|) && Numbered(w, nodes) && Distinct(nodes)
    requires SelvesClosed(w, nodes) && PairsLoaded(w, nodes, connections, t, g, base, c0, |connections|) && j < |nodes|
    ensures GaterIn(w.conns[w.nodes[nodes[j]].self].gater, nodes) && |g.nodes| == |nodes|
    ensures t.nodes[g.nodes[j]].self < |t.conns|
    ensures SelfRestored(w.conns[w.nodes[nodes[j]].self], t.conns[t.nodes[g.nodes[j]].self], nodes, g.nodes)
  {
    var c := w.conns[w.nodes[nodes[j]].self];
    assert t.nodes[g.nodes[j]].self == c0 + j;
    assert SelfLoaded(t.conns[c0 + j], SelfJSON(w, nodes[j], j), g.nodes);
    if c.gater.Some? {
      RefOfNumbered(w, nodes, c.gater.value);
      IndexOfDistinct(nodes, IndexRef(w, c.gater.value).i);
    }
  }

  /** After the whole load, the `q`-th loaded connection restores
      `connections[q]` of the walked arena. */
  lemma ConnRestoredOf(w: Store, nodes: seq<nat>, connections: seq<nat>, t: Store, g: NetworkFields, base: nat, c0: nat, q: nat)
    requires StoreOk(w) && IdsBelow(nodes, |w.nodes|) && IdsBelow(connections, |w.conns|) && Numbered(w, nodes) && Distinct(nodes)
    requires PairsClosed(w, nodes, connections) && PairsLoaded(w, nodes, connections, t, g, base, c0, |connections|)
    requires q < |connections|
    ensures |g.nodes| == |nodes| && |g.connections| == |connections| && g.connections[q] < |t.conns|
    ensures ConnRestored(w.conns[connections[q]], t.conns[g.connections[q]], nodes, g.nodes)
  {
    var e := ConnEntry(w, connections[q]);
    ConnRefs(w, nodes, connections[q]);
    assert g.connections[q] == c0 + |nodes| + q;
    assert EntryLoaded(t.conns[c0 + |nodes| + q], e, g.nodes);
    IndexOfDistinct(nodes, e.from.i);
    IndexOfDistinct(nodes, e.to.i);
    if e.gater.At? {
      IndexOfDistinct(nodes, e.gater.i);
    }
  }

  /** Every squash the corrected serializer writes is a name `fromJSON`
      knows. */
  lemma SerializedNames(s: Store, nodes: seq<nat>, connections: seq<nat>, input: nat, output: nat, dropout: real)
    requires StoreOk(s) && IdsBelow(nodes, |s.nodes|) && IdsBelow(connections, |s.conns|)
    requires SerializedFixed(s, nodes, connections, input, output, dropout).Done?
    ensures NamesKnown(SerializedFixed(s, nodes, connections, input, output, dropout).value)
  {
    var js := NodesJSON(s, nodes, |nodes|).value;
    forall k | 0 <= k < |js|
      ensures SquashByName(js[k].squash).Some?
    {
      SquashNameRoundTrip(s.nodes[nodes[k]].squash.value);
    }
  }

  /** `Network.fromJSON(network.toJSON())`, with the corrected serializer,
      on a network whose node list has no repeats and holds every node its
      connections and gaters refer to, and whose connection list joins
      distinct pairs of distinct nodes: the load goes through and gives
      back the input and output sizes, the dropout, every node as it was
      written, every self-connection's weight (and its gater, when the
      weight is not 0), and every connection with its weight and its ends
      and gater moved to the loaded nodes. */
  lemma RoundTrip(s: Store, nodes: seq<nat>, connections: seq<nat>, input: nat, output: nat, dropout: real, s0: Store, f0: NetworkFields)
    requires StoreOk(s) && IdsBelow(nodes, |s.nodes|) && IdsBelow(connections, |s.conns|)
    requires Distinct(nodes) && Closed(s, nodes, connections) && SimplePairs(s, connections)
    requires SerializedFixed(s, nodes, connections, input, output, dropout).Done?
    requires FieldsOk(s0, f0) && f0.input == input && f0.output == output
    ensures LoadNet(s0, f0, SerializedFixed(s, nodes, connections, input, output, dropout).value).Done?
    ensures var (t, g) := LoadNet(s0, f0, SerializedFixed(s, nodes, connections, input, output, dropout).value).value;
            && g.input == input && g.output == output && g.dropout == dropout
            && |g.nodes| == |nodes| && NodesJSON(t, g.nodes, |g.nodes|) == NodesJSON(s, nodes, |nodes|)
            && (forall j :: 0 <= j < |nodes| ==>
                  SelfRestored(s.conns[s.nodes[nodes[j]].self], t.conns[t.nodes[g.nodes[j]].self], nodes, g.nodes))
            && |g.connections| == |connections|
            && (forall q :: 0 <= q < |connections| ==>
                  ConnRestored(s.conns[connections[q]], t.conns[g.connections[q]], nodes, g.nodes))
  {
    var w := IndexedUpTo(s, nodes, |nodes|);
    AfterWalk(s, nodes, connections);
    IndexedFrame(s, nodes, |nodes|);
    var json := SerializedFixed(s, nodes, connections, input, output, dropout).value;
    assert SimplePairs(w, connections);
    var t, g := LoadsBack(w, nodes, connections, s0, f0, json);
    SerializedNames(s, nodes, connections, input, output, dropout);
    LoadedNodes(s0, f0, json);
    RestoredSelves(s, nodes, connections, w, t, g, |s0.nodes|, |s0.conns|);
    RestoredConns(s, nodes, connections, w, t, g, |s0.nodes|, |s0.conns|);
  }

  /** The self-connections after the load, against the original arena
      `s`, which the walk `w` only renumbered. */
  lemma RestoredSelves(s: Store, nodes: seq<nat>, connections: seq<nat>, w: Store, t: Store, g: NetworkFields, base: nat, c0: nat)
    requires StoreOk(s) && IdsBelow(nodes, |s.nodes|) && IdsBelow(connections, |s.conns|) && Distinct(nodes)
    requires w == IndexedUpTo(s, nodes, |nodes|) && StoreOk(w) && Numbered(w, nodes) && SelvesClosed(w, nodes)
    requires FieldsOk(t, g) && PairsLoaded(w, nodes, connections, t, g, base, c0, |connections|)
    requires forall n :: 0 <= n < |s.nodes| ==> w.nodes[n] == s.nodes[n].(index := w.nodes[n].index)
    requires w.conns == s.conns
    ensures |g.nodes| == |nodes|
    ensures forall j :: 0 <= j < |nodes| ==> GaterIn(s.conns[s.nodes[nodes[j]].self].gater, nodes)
    ensures forall j :: 0 <= j < |nodes| ==>
              SelfRestored(s.conns[s.nodes[nodes[j]].self], t.conns[t.nodes[g.nodes[j]].self], nodes, g.nodes)
  {
    forall j | 0 <= j < |nodes|
      ensures GaterIn(s.conns[s.nodes[nodes[j]].self].gater, nodes)
      ensures SelfRestored(s.conns[s.nodes[nodes[j]].self], t.conns[t.nodes[g.nodes[j]].self], nodes, g.nodes)
    {
      assert w.nodes[nodes[j]].self == s.nodes[nodes[j]].self;
      SelfRestoredOf(w, nodes, connections, t, g, base, c0, j);
    }
  }

  /** The connections after the load, against the original arena `s`. */
  lemma RestoredConns(s: Store, nodes: seq<nat>, connections: seq<nat>, w: Store, t: Store, g: NetworkFields, base: nat, c0: nat)
    requires StoreOk(s) && IdsBelow(nodes, |s.nodes|) && IdsBelow(connections, |s.conns|) && Distinct(nodes)
    requires w == IndexedUpTo(s, nodes, |nodes|) && StoreOk(w) && Numbered(w, nodes) && PairsClosed(w, nodes, connections)
    requires FieldsOk(t, g) && PairsLoaded(w, nodes, connections, t, g, base, c0, |connections|)
    requires w.conns == s.conns
    ensures |g.nodes| == |nodes| && |g.connections| == |connections|
    ensures forall q :: 0 <= q < |connections| ==>
              s.conns[connections[q]].from in nodes && s.conns[connections[q]].to in nodes && GaterIn(s.conns[connections[q]].gater, nodes)
    ensures forall q :: 0 <= q < |connections| ==>
              ConnRestored(s.conns[connections[q]], t.conns[g.connections[q]], nodes, g.nodes)
  {
    forall q | 0 <= q < |connections|
      ensures s.conns[connections[q]].from in nodes && s.conns[connections[q]].to in nodes && GaterIn(s.conns[connections[q]].gater, nodes)
      ensures ConnRestored(s.conns[connections[q]], t.conns[g.connections[q]], nodes, g.nodes)
    {
      ConnRestoredOf(w, nodes, connections, t, g, base, c0, q);
    }
  }
}

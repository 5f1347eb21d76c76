// Model of `architect.Construct` in
// Javascript/NeatJS/src/architecture/architect.js: a network assembled from
// a list of groups, layers and nodes that are already connected. Nodes and
// connections live in the arena of NeatNode; groups and layers are given by
// the node indices they hold.

module NeatArchitect {
  import opened NeatConnection
  import opened NeatNode
  import opened NeatMutation
  import opened NeatNetwork

  // ---------------------------------------------------------------------
  // The list

  /** An entry of the list: a `Group` (its nodes), a `Layer` (its groups'
      nodes), a `Node`, or anything else, which `Construct` skips. */
  datatype Item = GroupOf(members: seq<nat>) | LayerOf(groups: seq<seq<nat>>) | NodeOf(id: nat) | Other

  function Concat(groups: seq<seq<nat>>): (r: seq<nat>)
    ensures forall x :: x in r <==> exists j :: 0 <= j < |groups| && x in groups[j]
  {
    if groups == [] then []
    else
      var r := Concat(groups[..|groups| - 1]) + groups[|groups| - 1];
      assert forall j :: 0 <= j < |groups| - 1 ==> groups[..|groups| - 1][j] == groups[j];
      r
  }

  /** The nodes an entry contributes, in order. */
  function Members(item: Item): seq<nat>
  {
    match item
    case GroupOf(members) => members
    case LayerOf(groups) => Concat(groups)
    case NodeOf(id) => [id]
    case Other => []
  }

  /** The first loop of `Construct`: every entry's nodes, in list order. */
  function Flattened(list: seq<Item>): (r: seq<nat>)
  {
    if list == [] then [] else Flattened(list[..|list| - 1]) + Members(list[|list| - 1])
  }

  lemma {:induction false} FlattenedHas(list: seq<Item>, x: nat)
    ensures x in Flattened(list) <==> exists i :: 0 <= i < |list| && x in Members(list[i])
    decreases |list|
  {
    if list != [] {
      var front := list[..|list| - 1];
      FlattenedHas(front, x);
      if x in Flattened(front) {
        var i :| 0 <= i < |front| && x in Members(front[i]);
        assert list[i] == front[i];
      }
      if exists i :: 0 <= i < |list| && x in Members(list[i]) {
        var i :| 0 <= i < |list| && x in Members(list[i]);
        if i < |list| - 1 {
          assert front[i] == list[i];
        }
      }
    }
  }

  /** Every node the list names is in the arena. */
  predicate NamesBelow(list: seq<Item>, n: nat)
  {
    forall i :: 0 <= i < |list| ==> IdsBelow(Members(list[i]), n)
  }

  lemma {:induction false} FlattenedBelow(list: seq<Item>, n: nat)
    requires NamesBelow(list, n)
    ensures IdsBelow(Flattened(list), n)
  {
    forall k | 0 <= k < |Flattened(list)|
      ensures Flattened(list)[k] < n
    {
      var x := Flattened(list)[k];
      FlattenedHas(list, x);
      var i :| 0 <= i < |list| && x in Members(list[i]);
      var j :| 0 <= j < |Members(list[i])| && Members(list[i])[j] == x;
    }
  }

  /** One inner loop of the first loop: `nodes.push(...)` for each of
      `more`. */
  method PushAll(nodes: seq<nat>, more: seq<nat>) returns (r: seq<nat>)
    ensures r == nodes + more
  {
    r := nodes;
    var j := 0;
    while j < |more|
      invariant j <= |more| && r == nodes + more[..j]
    {
      r := r + [more[j]];
      j := j + 1;
      assert more[..j] == more[..j - 1] + [more[j - 1]];
    }
    assert more[..j] == more;
  }

  /** The two inner loops for a layer: each group's nodes. */
  method PushGroups(nodes: seq<nat>, groups: seq<seq<nat>>) returns (r: seq<nat>)
    ensures r == nodes + Concat(groups)
  {
    r := nodes;
    var j := 0;
    while j < |groups|
      invariant j <= |groups| && r == nodes + Concat(groups[..j])
    {
      r := PushAll(r, groups[j]);
      assert groups[..j + 1][..j] == groups[..j];
      j := j + 1;
    }
    assert groups[..j] == groups;
  }

  /** The first loop of `Construct`. */
  method Flatten(list: seq<Item>) returns (nodes: seq<nat>)
    ensures nodes == Flattened(list)
  {
    nodes := [];
    var i := 0;
    while i < |list|
      invariant i <= |list| && nodes == Flattened(list[..i])
    {
      match list[i] {
        case GroupOf(members) =>
          nodes := PushAll(nodes, members);
        case LayerOf(groups) =>
          nodes := PushGroups(nodes, groups);
        case NodeOf(id) =>
          nodes := nodes + [id];
        case Other =>
      }
      assert list[..i + 1][..i] == list[..i];
      i := i + 1;
    }
    assert list[..i] == list;
  }

  // ---------------------------------------------------------------------
  // Inputs, hidden nodes and outputs

  datatype NodeKind = InputKind | HiddenKind | OutputKind

  /** How the second loop of `Construct` files a node: as an output when it
      is typed so or neither projects nor gates, else as an input when it is
      typed so or nothing feeds it, else as hidden. */
  function Kind(n: Node): NodeKind
  {
    if n.nodeType == "output" || |n.outs| + |n.gated| == 0 then OutputKind
    else if n.nodeType == "input" || |n.ins| == 0 then InputKind
    else HiddenKind
  }

  /** The node once the loop has set its type: filing it again files it the
      same way and changes nothing more, so a node listed twice is retyped
      once. */
  function Retyped(n: Node): (m: Node)
    ensures Kind(m) == Kind(n) && m == n.(nodeType := m.nodeType)
    ensures m.nodeType == match Kind(n) case InputKind => "input" case OutputKind => "output" case HiddenKind => n.nodeType
  {
    match Kind(n)
    case OutputKind => n.(nodeType := "output")
    case InputKind => n.(nodeType := "input")
    case HiddenKind => n
  }

  lemma RetypedTwice(n: Node)
    ensures Retyped(Retyped(n)) == Retyped(n)
  {
  }

  /** The arena once every node of `ids` is retyped. */
  function Relabelled(ns: seq<Node>, ids: seq<nat>): (r: seq<Node>)
    ensures |r| == |ns|
  {
    seq(|ns|, y requires 0 <= y < |ns| => if y in ids then Retyped(ns[y]) else ns[y])
  }

  /** Retyping keeps every reference of the arena. */
  lemma RelabelledOk(ns: seq<Node>, cs: seq<Connection>, ids: seq<nat>)
    requires StoreOk(Store(ns, cs))
    ensures StoreOk(Store(Relabelled(ns, ids), cs))
    ensures forall y :: 0 <= y < |ns| ==> Kind(Relabelled(ns, ids)[y]) == Kind(ns[y])
  {
    var r := Relabelled(ns, ids);
    forall y | 0 <= y < |ns|
      ensures NodeOk(r[y], |cs|) && Kind(r[y]) == Kind(ns[y])
    {
      assert NodeOk(ns[y], |cs|);
    }
  }

  /** The nodes of `ids` of kind `k`, in order. */
  function Pick(ns: seq<Node>, ids: seq<nat>, k: NodeKind): (r: seq<nat>)
    requires IdsBelow(ids, |ns|)
    ensures IdsBelow(r, |ns|) && |r| <= |ids|
  {
    if ids == [] then []
    else (if Kind(ns[ids[0]]) == k then [ids[0]] else []) + Pick(ns, ids[1..], k)
  }

  /** A node is picked exactly when it is listed and of the kind. */
  lemma {:induction false} PickHas(ns: seq<Node>, ids: seq<nat>, k: NodeKind, x: nat)
    requires IdsBelow(ids, |ns|)
    ensures x in Pick(ns, ids, k) <==> x in ids && x < |ns| && Kind(ns[x]) == k
  {
    if ids != [] {
      PickHas(ns, ids[1..], k, x);
      assert ids == [ids[0]] + ids[1..];
    }
  }

  function Reverse(s: seq<nat>): (r: seq<nat>)
    ensures |r| == |s|
  {
    if s == [] then [] else Reverse(s[1..]) + [s[0]]
  }

  lemma {:induction false} ReverseAt(s: seq<nat>)
    ensures forall i :: 0 <= i < |s| ==> Reverse(s)[i] == s[|s| - 1 - i]
  {
    if s != [] {
      ReverseAt(s[1..]);
    }
  }

  lemma {:induction false} ReversePermutes(s: seq<nat>)
    ensures multiset(Reverse(s)) == multiset(s)
  {
    if s != [] {
      ReversePermutes(s[1..]);
      assert s == [s[0]] + s[1..];
    }
  }

  /** The order `Construct` gives the nodes: the inputs, the hidden nodes,
      the outputs, where the inputs and outputs come out reversed because
      the loop walks the list backwards. */
  function Order(ns: seq<Node>, flat: seq<nat>): (r: seq<nat>)
    requires IdsBelow(flat, |ns|)
    ensures IdsBelow(r, |ns|)
  {
    ReverseAt(Pick(ns, flat, InputKind));
    ReverseAt(Pick(ns, flat, OutputKind));
    Reverse(Pick(ns, flat, InputKind)) + Pick(ns, flat, HiddenKind) + Reverse(Pick(ns, flat, OutputKind))
  }

  /** Each node occurs in a pick as often as in the list when it is of the
      kind, and not at all otherwise. */
  lemma {:induction false} PickCount(ns: seq<Node>, ids: seq<nat>, k: NodeKind, x: nat)
    requires IdsBelow(ids, |ns|)
    ensures multiset(Pick(ns, ids, k))[x] == if x < |ns| && Kind(ns[x]) == k then multiset(ids)[x] else 0
  {
    if ids != [] {
      var y, rest := ids[0], ids[1..];
      PickCount(ns, rest, k, x);
      assert ids == [y] + rest;
      var mids, mrest: multiset<nat> := multiset(ids), multiset(rest);
      assert mids[x] == mrest[x] + (if y == x then 1 else 0);
      if Kind(ns[y]) == k {
        assert Pick(ns, ids, k) == [y] + Pick(ns, rest, k);
      } else {
        assert Pick(ns, ids, k) == Pick(ns, rest, k);
      }
    }
  }

  lemma PickPermutes(ns: seq<Node>, ids: seq<nat>)
    requires IdsBelow(ids, |ns|)
    ensures multiset(Pick(ns, ids, InputKind)) + multiset(Pick(ns, ids, HiddenKind)) + multiset(Pick(ns, ids, OutputKind))
            == multiset(ids)
  {
    var m := multiset(Pick(ns, ids, InputKind)) + multiset(Pick(ns, ids, HiddenKind)) + multiset(Pick(ns, ids, OutputKind));
    forall x: nat
      ensures m[x] == multiset(ids)[x]
    {
      PickCount(ns, ids, InputKind, x);
      PickCount(ns, ids, HiddenKind, x);
      PickCount(ns, ids, OutputKind, x);
      if x >= |ns| {
        assert x !in ids;
      }
    }
  }

  /** `Construct` reorders the listed nodes and drops none: the order is a
      permutation of the list's nodes. */
  lemma OrderPermutes(ns: seq<Node>, flat: seq<nat>)
    requires IdsBelow(flat, |ns|)
    ensures multiset(Order(ns, flat)) == multiset(flat)
  {
    PickPermutes(ns, flat);
    ReversePermutes(Pick(ns, flat, InputKind));
    ReversePermutes(Pick(ns, flat, OutputKind));
  }

  /** Every picked node is of the kind. */
  lemma PickKinds(ns: seq<Node>, ids: seq<nat>, k: NodeKind)
    requires IdsBelow(ids, |ns|)
    ensures forall j :: 0 <= j < |Pick(ns, ids, k)| ==> Kind(ns[Pick(ns, ids, k)[j]]) == k
  {
    forall j | 0 <= j < |Pick(ns, ids, k)|
      ensures Kind(ns[Pick(ns, ids, k)[j]]) == k
    {
      PickHas(ns, ids, k, Pick(ns, ids, k)[j]);
    }
  }

  lemma ThreeParts<T>(a: seq<T>, b: seq<T>, c: seq<T>)
    ensures forall k :: 0 <= k < |a| ==> (a + b + c)[k] == a[k]
    ensures forall k :: |a| <= k < |a| + |b| ==> (a + b + c)[k] == b[k - |a|]
    ensures forall k :: |a| + |b| <= k < |a| + |b| + |c| ==> (a + b + c)[k] == c[k - |a| - |b|]
  {
  }

  /** Input nodes are always first, output nodes always last. */
  lemma OrderKinds(ns: seq<Node>, flat: seq<nat>)
    requires IdsBelow(flat, |ns|)
    ensures var o, i, h := Order(ns, flat), |Pick(ns, flat, InputKind)|, |Pick(ns, flat, HiddenKind)|;
            && |o| == i + h + |Pick(ns, flat, OutputKind)|
            && (forall k :: 0 <= k < i ==> Kind(ns[o[k]]) == InputKind)
            && (forall k :: i <= k < i + h ==> Kind(ns[o[k]]) == HiddenKind)
            && (forall k :: i + h <= k < |o| ==> Kind(ns[o[k]]) == OutputKind)
  {
    var pi, ph, po := Pick(ns, flat, InputKind), Pick(ns, flat, HiddenKind), Pick(ns, flat, OutputKind);
    var ri, ro := Reverse(pi), Reverse(po);
    ReverseAt(pi);
    ReverseAt(po);
    var o := ri + ph + ro;
    PickKinds(ns, flat, InputKind);
    PickKinds(ns, flat, HiddenKind);
    PickKinds(ns, flat, OutputKind);
    ThreeParts(ri, ph, ro);
  }

  /** Retyping the listed nodes files none of them differently. */
  lemma {:induction false} PickRelabelled(ns: seq<Node>, flat: seq<nat>, ids: seq<nat>, k: NodeKind)
    requires IdsBelow(ids, |ns|)
    ensures Pick(Relabelled(ns, flat), ids, k) == Pick(ns, ids, k)
  {
    if ids != [] {
      PickRelabelled(ns, flat, ids[1..], k);
    }
  }

  lemma RelabelStep(ns: seq<Node>, x: nat, rest: seq<nat>)
    requires x < |ns|
    ensures Relabelled(ns, [x] + rest) == Relabelled(ns, rest)[x := Retyped(ns[x])]
  {
    var a, b := Relabelled(ns, [x] + rest), Relabelled(ns, rest)[x := Retyped(ns[x])];
    forall y | 0 <= y < |ns|
      ensures a[y] == b[y]
    {
      assert y in [x] + rest <==> y == x || y in rest;
    }
  }

  /** The lists of the second loop of `Construct` once it has filed
      `flat[i..]`: the hidden nodes among them kept in `nodes` after the
      unfiled `flat[..i]`, the inputs and outputs pushed in the order met. */
  ghost predicate Filed(ns: seq<Node>, flat: seq<nat>, i: nat, nodes: seq<nat>, inputs: seq<nat>, outputs: seq<nat>)
    requires i <= |flat| && IdsBelow(flat, |ns|)
  {
    && nodes == flat[..i] + Pick(ns, flat[i..], HiddenKind)
    && inputs == Reverse(Pick(ns, flat[i..], InputKind))
    && outputs == Reverse(Pick(ns, flat[i..], OutputKind))
  }

  lemma PickStep(ns: seq<Node>, flat: seq<nat>, i: nat, k: NodeKind)
    requires 0 < i <= |flat| && IdsBelow(flat, |ns|)
    ensures Kind(ns[flat[i - 1]]) == k ==> Pick(ns, flat[i - 1..], k) == [flat[i - 1]] + Pick(ns, flat[i..], k)
    ensures Kind(ns[flat[i - 1]]) != k ==> Pick(ns, flat[i - 1..], k) == Pick(ns, flat[i..], k)
  {
    assert flat[i - 1..][1..] == flat[i..];
  }

  lemma ReverseCons(x: nat, s: seq<nat>)
    ensures Reverse([x] + s) == Reverse(s) + [x]
  {
    assert ([x] + s)[1..] == s;
  }

  /** Filing an output `flat[i - 1]` moves it out of `nodes` onto the
      outputs. */
  lemma FiledOutput(ns: seq<Node>, flat: seq<nat>, i: nat, nodes: seq<nat>, inputs: seq<nat>, outputs: seq<nat>)
    requires 0 < i <= |flat| && IdsBelow(flat, |ns|) && Filed(ns, flat, i, nodes, inputs, outputs)
    requires Kind(ns[flat[i - 1]]) == OutputKind
    ensures Filed(ns, flat, i - 1, nodes[..i - 1] + nodes[i..], inputs, outputs + [flat[i - 1]])
  {
    PickStep(ns, flat, i, InputKind);
    PickStep(ns, flat, i, HiddenKind);
    PickStep(ns, flat, i, OutputKind);
    ReverseCons(flat[i - 1], Pick(ns, flat[i..], OutputKind));
    assert nodes[..i - 1] == flat[..i - 1] && nodes[i..] == Pick(ns, flat[i..], HiddenKind);
  }

  /** Filing an input `flat[i - 1]` moves it out of `nodes` onto the
      inputs. */
  lemma FiledInput(ns: seq<Node>, flat: seq<nat>, i: nat, nodes: seq<nat>, inputs: seq<nat>, outputs: seq<nat>)
    requires 0 < i <= |flat| && IdsBelow(flat, |ns|) && Filed(ns, flat, i, nodes, inputs, outputs)
    requires Kind(ns[flat[i - 1]]) == InputKind
    ensures Filed(ns, flat, i - 1, nodes[..i - 1] + nodes[i..], inputs + [flat[i - 1]], outputs)
  {
    PickStep(ns, flat, i, InputKind);
    PickStep(ns, flat, i, HiddenKind);
    PickStep(ns, flat, i, OutputKind);
    ReverseCons(flat[i - 1], Pick(ns, flat[i..], InputKind));
    assert nodes[..i - 1] == flat[..i - 1] && nodes[i..] == Pick(ns, flat[i..], HiddenKind);
  }

  /** Filing a hidden `flat[i - 1]` leaves it where it is. */
  lemma FiledHidden(ns: seq<Node>, flat: seq<nat>, i: nat, nodes: seq<nat>, inputs: seq<nat>, outputs: seq<nat>)
    requires 0 < i <= |flat| && IdsBelow(flat, |ns|) && Filed(ns, flat, i, nodes, inputs, outputs)
    requires Kind(ns[flat[i - 1]]) == HiddenKind
    ensures Filed(ns, flat, i - 1, nodes, inputs, outputs)
  {
    PickStep(ns, flat, i, InputKind);
    PickStep(ns, flat, i, HiddenKind);
    PickStep(ns, flat, i, OutputKind);
    assert flat[..i] == flat[..i - 1] + [flat[i - 1]];
  }

  /** Filing `flat[i - 1]` retypes it, whether or not it was filed before. */
  lemma RelabelledStep(ns: seq<Node>, flat: seq<nat>, i: nat)
    requires 0 < i <= |flat| && IdsBelow(flat, |ns|)
    ensures var x, cur := flat[i - 1], Relabelled(ns, flat[i..]);
            && Kind(cur[x]) == Kind(ns[x])
            && Relabelled(ns, flat[i - 1..]) == cur[x := Retyped(cur[x])]
  {
    var x, rest := flat[i - 1], flat[i..];
    assert flat[i - 1..] == [x] + rest;
    RelabelStep(ns, x, rest);
  }

  /** One turn of the second loop: node `flat[i - 1]` is filed. */
  method ClassifyOne(g: Graph, net: Network, ghost ns: seq<Node>, flat: seq<nat>, i: nat,
                     nodes: seq<nat>, inputs: seq<nat>, outputs: seq<nat>)
    returns (nodes': seq<nat>, inputs': seq<nat>, outputs': seq<nat>)
    requires 0 < i <= |flat| && IdsBelow(flat, |ns|) && Filed(ns, flat, i, nodes, inputs, outputs)
    requires g.nodes == Relabelled(ns, flat[i..]) && net.input == |inputs| && net.output == |outputs|
    modifies g, net
    ensures Filed(ns, flat, i - 1, nodes', inputs', outputs')
    ensures g.nodes == Relabelled(ns, flat[i - 1..]) && net.input == |inputs'| && net.output == |outputs'|
    ensures g.conns == old(g.conns) && net.Fields() == old(net.Fields()).(input := net.input, output := net.output)
  {
    var x := flat[i - 1];
    var n := g.nodes[x];
    RelabelledStep(ns, flat, i);
    if n.nodeType == "output" || |n.outs| + |n.gated| == 0 {
      assert Kind(n) == OutputKind;
      FiledOutput(ns, flat, i, nodes, inputs, outputs);
      g.nodes := g.nodes[x := n.(nodeType := "output")];
      net.output := net.output + 1;
      outputs' := outputs + [x];
      nodes', inputs' := nodes[..i - 1] + nodes[i..], inputs;
    } else if n.nodeType == "input" || |n.ins| == 0 {
      assert Kind(n) == InputKind;
      FiledInput(ns, flat, i, nodes, inputs, outputs);
      g.nodes := g.nodes[x := n.(nodeType := "input")];
      net.input := net.input + 1;
      inputs' := inputs + [x];
      nodes', outputs' := nodes[..i - 1] + nodes[i..], outputs;
    } else {
      assert Kind(n) == HiddenKind && Retyped(n) == n;
      FiledHidden(ns, flat, i, nodes, inputs, outputs);
      nodes', inputs', outputs' := nodes, inputs, outputs;
    }
  }

  /** The second loop of `Construct`, from the last listed node to the
      first. */
  method Classify(g: Graph, net: Network, flat: seq<nat>) returns (nodes: seq<nat>, inputs: seq<nat>, outputs: seq<nat>)
    requires IdsBelow(flat, |g.nodes|) && net.input == 0 && net.output == 0
    modifies g, net
    ensures g.nodes == Relabelled(old(g.nodes), flat) && g.conns == old(g.conns)
    ensures nodes == Pick(old(g.nodes), flat, HiddenKind)
    ensures inputs == Reverse(Pick(old(g.nodes), flat, InputKind))
    ensures outputs == Reverse(Pick(old(g.nodes), flat, OutputKind))
    ensures net.Fields() == old(net.Fields()).(input := |inputs|, output := |outputs|)
  {
    ghost var ns := g.nodes;
    nodes, inputs, outputs := flat, [], [];
    var i := |flat|;
    assert g.nodes == Relabelled(ns, flat[i..]);
    while i > 0
      invariant i <= |flat| && Filed(ns, flat, i, nodes, inputs, outputs)
      invariant g.nodes == Relabelled(ns, flat[i..]) && net.input == |inputs| && net.output == |outputs|
      invariant g.conns == old(g.conns) && net.Fields() == old(net.Fields()).(input := net.input, output := net.output)
    {
      nodes, inputs, outputs := ClassifyOne(g, net, ns, flat, i, nodes, inputs, outputs);
      i := i - 1;
    }
    assert flat[0..] == flat;
  }

  /** Every listed node carries the type of its kind once retyped. */
  lemma RelabelledFixed(ns: seq<Node>, flat: seq<nat>)
    requires IdsBelow(flat, |ns|)
    ensures forall x :: x in flat ==> Retyped(Relabelled(ns, flat)[x]) == Relabelled(ns, flat)[x]
  {
    forall x | x in flat
      ensures Retyped(Relabelled(ns, flat)[x]) == Relabelled(ns, flat)[x]
    {
      RetypedTwice(ns[x]);
    }
  }

  // ---------------------------------------------------------------------
  // The third loop

  /** The three lists the third loop of `Construct` fills. */
  datatype Part = Outgoing | Gating | SelfLoop

  /** What node `x` adds to one list: its outgoing connections, the
      connections it gates, or its self-connection when that has a non-zero
      weight. */
  function Links(s: Store, x: nat, part: Part): (r: seq<nat>)
    requires StoreOk(s) && x < |s.nodes|
    ensures IdsBelow(r, |s.conns|)
  {
    assert NodeOk(s.nodes[x], |s.conns|);
    match part
    case Outgoing => s.nodes[x].outs
    case Gating => s.nodes[x].gated
    case SelfLoop => if s.conns[s.nodes[x].self].weight != 0.0 then [s.nodes[x].self] else []
  }

  /** What the nodes of `order` add to one list, node by node. */
  function Gathered(s: Store, order: seq<nat>, part: Part): (r: seq<nat>)
    requires StoreOk(s) && IdsBelow(order, |s.nodes|)
    ensures IdsBelow(r, |s.conns|)
  {
    if order == [] then [] else Gathered(s, order[..|order| - 1], part) + Links(s, order[|order| - 1], part)
  }

  /** A connection is gathered exactly when some node of `order` adds it. */
  lemma {:induction false} GatheredHas(s: Store, order: seq<nat>, part: Part, c: nat)
    requires StoreOk(s) && IdsBelow(order, |s.nodes|)
    ensures c in Gathered(s, order, part) <==> exists k :: 0 <= k < |order| && c in Links(s, order[k], part)
    decreases |order|
  {
    if order != [] {
      var front := order[..|order| - 1];
      GatheredHas(s, front, part, c);
      if c in Gathered(s, front, part) {
        var k :| 0 <= k < |front| && c in Links(s, front[k], part);
        assert order[k] == front[k];
      }
      if exists k :: 0 <= k < |order| && c in Links(s, order[k], part) {
        var k :| 0 <= k < |order| && c in Links(s, order[k], part);
        if k < |order| - 1 {
          assert front[k] == order[k];
        }
      }
    }
  }

  /** `selfconns` holds the self-connections of the nodes, exactly those of
      non-zero weight. */
  lemma SelfconnsNonZero(s: Store, order: seq<nat>, c: nat)
    requires StoreOk(s) && IdsBelow(order, |s.nodes|)
    ensures c in Gathered(s, order, SelfLoop) <==>
            (exists k :: 0 <= k < |order| && s.nodes[order[k]].self == c) && c < |s.conns| && s.conns[c].weight != 0.0
  {
    GatheredHas(s, order, SelfLoop, c);
    if exists k :: 0 <= k < |order| && s.nodes[order[k]].self == c {
      var k :| 0 <= k < |order| && s.nodes[order[k]].self == c;
      assert NodeOk(s.nodes[order[k]], |s.conns|);
      if c < |s.conns| && s.conns[c].weight != 0.0 {
        assert c in Links(s, order[k], SelfLoop);
      }
    }
  }

  lemma GatheredStep(s: Store, order: seq<nat>, i: nat, part: Part)
    requires StoreOk(s) && IdsBelow(order, |s.nodes|) && i < |order|
    ensures Gathered(s, order[..i + 1], part) == Gathered(s, order[..i], part) + Links(s, order[i], part)
  {
    assert order[..i + 1][..i] == order[..i];
  }

  /** The third loop of `Construct`: each node's outgoing connections,
      gated connections and live self-connection, in node order; the
      network's three lists receive them as they are pushed. */
  method Collect(s: Store, order: seq<nat>) returns (connections: seq<nat>, gates: seq<nat>, selfconns: seq<nat>)
    requires StoreOk(s) && IdsBelow(order, |s.nodes|)
    ensures connections == Gathered(s, order, Outgoing)
    ensures gates == Gathered(s, order, Gating)
    ensures selfconns == Gathered(s, order, SelfLoop)
  {
    connections, gates, selfconns := [], [], [];
    var i := 0;
    while i < |order|
      invariant i <= |order|
      invariant connections == Gathered(s, order[..i], Outgoing)
      invariant gates == Gathered(s, order[..i], Gating)
      invariant selfconns == Gathered(s, order[..i], SelfLoop)
    {
      var n := s.nodes[order[i]];
      GatheredStep(s, order, i, Outgoing);
      GatheredStep(s, order, i, Gating);
      GatheredStep(s, order, i, SelfLoop);
      connections := PushAll(connections, n.outs);
      gates := PushAll(gates, n.gated);
      if s.conns[n.self].weight != 0.0 {
        selfconns := selfconns + [n.self];
      }
      i := i + 1;
    }
    assert order[..i] == order;
  }

  lemma EmptyFront<T>(s: seq<T>)
    ensures [] + s == s
  {
  }

  /** The end of `Construct`: the third loop pushes onto the network's
      lists, then the network takes the order of the nodes. */
  method Publish(net: Network, order: seq<nat>)
    requires net.Ready() && IdsBelow(order, |net.graph.nodes|)
    modifies net
    ensures net.Ready()
    ensures var s := net.graph.State();
            net.Fields() == old(net.Fields()).(nodes := order,
                                               connections := old(net.connections) + Gathered(s, order, Outgoing),
                                               gates := old(net.gates) + Gathered(s, order, Gating),
                                               selfconns := old(net.selfconns) + Gathered(s, order, SelfLoop))
  {
    var connections, gates, selfconns := Collect(net.graph.State(), order);
    net.connections, net.gates, net.selfconns := net.connections + connections, net.gates + gates, net.selfconns + selfconns;
    net.nodes := order;
  }

  /** The rest of `Construct` once the empty network `net` is made and the
      list flattened to `flat`: the listed nodes are retyped in the arena
      even when it throws. */
  method Assemble(net: Network, flat: seq<nat>) returns (res: Outcome<Network>)
    requires net.Ready() && IdsBelow(flat, |net.graph.nodes|)
    requires net.input == 0 && net.output == 0 && net.nodes == [] && net.connections == [] && net.gates == [] && net.selfconns == []
    modifies net, net.graph
    ensures net.graph.nodes == Relabelled(old(net.graph.nodes), flat) && net.graph.conns == old(net.graph.conns)
    ensures res.Throws? <==> Pick(old(net.graph.nodes), flat, InputKind) == [] || Pick(old(net.graph.nodes), flat, OutputKind) == []
    ensures res.Done? ==>
              && res.value == net && net.Ready()
              && net.nodes == Order(old(net.graph.nodes), flat)
              && net.input == |Pick(old(net.graph.nodes), flat, InputKind)|
              && net.output == |Pick(old(net.graph.nodes), flat, OutputKind)|
              && net.connections == Gathered(net.graph.State(), net.nodes, Outgoing)
              && net.gates == Gathered(net.graph.State(), net.nodes, Gating)
              && net.selfconns == Gathered(net.graph.State(), net.nodes, SelfLoop)
              && net.dropout == old(net.dropout) && net.score == old(net.score)
  {
    var g := net.graph;
    ghost var ns := g.nodes;
    var nodes, inputs, outputs := Classify(g, net, flat);
    nodes := inputs + nodes + outputs;
    assert nodes == Order(ns, flat);
    RelabelledOk(ns, g.conns, flat);
    if net.input == 0 || net.output == 0 {
      return Throws;
    }
    Publish(net, nodes);
    EmptyFront(Gathered(g.State(), nodes, Outgoing));
    EmptyFront(Gathered(g.State(), nodes, Gating));
    EmptyFront(Gathered(g.State(), nodes, SelfLoop));
    return Done(net);
  }

  /** `architect.Construct(list)` on the arena `g`: `d` and `w` are the
      draws of the `new Network(0, 0)` it starts from. Every listed node
      ends up typed after its kind, and the network holds them inputs
      first, outputs last. */
  method Construct(g: Graph, list: seq<Item>, d: nat -> real, w: nat -> real) returns (res: Outcome<Network>)
    requires g.Valid() && Uniform(d) && NamesBelow(list, |g.nodes|)
    modifies g
    ensures g.Valid() && IdsBelow(Flattened(list), |g.nodes|)
    ensures forall x :: x in Flattened(list) ==> Retyped(g.nodes[x]) == g.nodes[x]
    ensures res.Throws? <==> Pick(g.nodes, Flattened(list), InputKind) == [] || Pick(g.nodes, Flattened(list), OutputKind) == []
    ensures res.Done? ==>
              var net, flat := res.value, Flattened(list);
              && fresh(net) && net.graph == g && net.Ready()
              && net.nodes == Order(g.nodes, flat)
              && net.input == |Pick(g.nodes, flat, InputKind)| && net.output == |Pick(g.nodes, flat, OutputKind)|
              && net.connections == Gathered(g.State(), net.nodes, Outgoing)
              && net.gates == Gathered(g.State(), net.nodes, Gating)
              && net.selfconns == Gathered(g.State(), net.nodes, SelfLoop)
              && net.dropout == 0.0 && net.score == None
  {
    var net := new Network(g, 0, 0, d, w);
    FlattenedBelow(list, |g.nodes|);
    var flat := Flatten(list);
    ghost var ns := g.nodes;
    res := Assemble(net, flat);
    RelabelledOk(ns, g.conns, flat);
    RelabelledFixed(ns, flat);
    PickRelabelled(ns, flat, flat, InputKind);
    PickRelabelled(ns, flat, flat, HiddenKind);
    PickRelabelled(ns, flat, flat, OutputKind);
  }

  // ---------------------------------------------------------------------
  // The layer arguments of `Perceptron`, `LSTM` and `GRU`

  /** The layer sizes `Perceptron`, `LSTM` and `GRU` are given, split into
      the input layer, the blocks between and the output layer; each of them
      throws with fewer than three. */
  function Layers(args: seq<nat>): (r: Outcome<(nat, seq<nat>, nat)>)
    ensures r.Throws? <==> |args| < 3
    ensures r.Done? ==> [r.value.0] + r.value.1 + [r.value.2] == args && |r.value.1| >= 1
  {
    if |args| < 3 then Throws else Done((args[0], args[1..|args| - 1], args[|args| - 1]))
  }
}

// Model of Javascript/NeatJS/src/architecture/node.js. Node and Connection
// objects live in an arena (`Graph`): a node or connection is its index in
// `nodes` or `conns`, and a reference field (`from`, `to`, `gater`, the
// `in`/`out`/`gated` lists, `self`) holds such an index. `new` appends to the
// arena, so indices never move and a graph shared by several networks plays
// the part of the JavaScript heap.

module NeatNode {
  import opened NeatConnection

  /** The activation functions of methods/activation.js, by name. */
  datatype Squash =
    | LOGISTIC | TANH | IDENTITY | STEP | RELU | SOFTSIGN | SINUSOID | GAUSSIAN
    | BENT_IDENTITY | BIPOLAR | BIPOLAR_SIGMOID | HARD_TANH | ABSOLUTE | INVERSE | SELU

  /** `squash.name`. */
  function SquashName(s: Squash): string
  {
    match s
    case LOGISTIC => "LOGISTIC"
    case TANH => "TANH"
    case IDENTITY => "IDENTITY"
    case STEP => "STEP"
    case RELU => "RELU"
    case SOFTSIGN => "SOFTSIGN"
    case SINUSOID => "SINUSOID"
    case GAUSSIAN => "GAUSSIAN"
    case BENT_IDENTITY => "BENT_IDENTITY"
    case BIPOLAR => "BIPOLAR"
    case BIPOLAR_SIGMOID => "BIPOLAR_SIGMOID"
    case HARD_TANH => "HARD_TANH"
    case ABSOLUTE => "ABSOLUTE"
    case INVERSE => "INVERSE"
    case SELU => "SELU"
  }

  /** `methods.activation[name]`: `undefined` for a name not in the table. */
  function SquashByName(name: string): (s: Option<Squash>)
    ensures s.Some? ==> SquashName(s.value) == name
  {
    if name == "LOGISTIC" then Some(LOGISTIC)
    else if name == "TANH" then Some(TANH)
    else if name == "IDENTITY" then Some(IDENTITY)
    else if name == "STEP" then Some(STEP)
    else if name == "RELU" then Some(RELU)
    else if name == "SOFTSIGN" then Some(SOFTSIGN)
    else if name == "SINUSOID" then Some(SINUSOID)
    else if name == "GAUSSIAN" then Some(GAUSSIAN)
    else if name == "BENT_IDENTITY" then Some(BENT_IDENTITY)
    else if name == "BIPOLAR" then Some(BIPOLAR)
    else if name == "BIPOLAR_SIGMOID" then Some(BIPOLAR_SIGMOID)
    else if name == "HARD_TANH" then Some(HARD_TANH)
    else if name == "ABSOLUTE" then Some(ABSOLUTE)
    else if name == "INVERSE" then Some(INVERSE)
    else if name == "SELU" then Some(SELU)
    else None
  }

  /** Looking a function up by its own name finds it again. */
  lemma SquashNameRoundTrip(s: Squash)
    ensures SquashByName(SquashName(s)) == Some(s)
  {
  }

  /** The mutation methods of the catalogue `methods.mutation`. */
  datatype Mutation =
    | ADD_NODE | SUB_NODE | ADD_CONN | SUB_CONN | MOD_WEIGHT | MOD_BIAS | MOD_ACTIVATION
    | ADD_SELF_CONN | SUB_SELF_CONN | ADD_GATE | SUB_GATE | ADD_BACK_CONN | SUB_BACK_CONN | SWAP_NODES

  /** A `method` argument: absent, a catalogue entry, or an object whose name
      is not in the catalogue. */
  datatype MethodArg = Missing | Catalogued(m: Mutation) | Foreign

  /** The settings the catalogue entries carry: `SUB_NODE.keep_gates`, the
      `min`/`max` of `MOD_WEIGHT` and `MOD_BIAS`, `mutateOutput` and
      `allowed` of `MOD_ACTIVATION`, and `mutateOutput` of `SWAP_NODES`. */
  datatype Catalogue = Catalogue(
    keepGates: bool, weightMin: real, weightMax: real, biasMin: real, biasMax: real,
    activationOutput: bool, allowed: seq<Squash>, swapOutput: bool)

  /** A `Node` object. `squash` is `None` when it is `undefined`. */
  datatype Node = Node(
    bias: real, squash: Option<Squash>, nodeType: string,
    activation: real, state: real, oldState: real, mask: real,
    previousDeltaBias: real, totalDeltaBias: real,
    ins: seq<nat>, outs: seq<nat>, gated: seq<nat>, self: nat,
    responsibility: real, projected: real, gatedError: real,
    index: Option<nat>)

  /** The state of a node freshly built by `new Node(type)`, whose
      self-connection is `self`; `r` is the bias draw. */
  function InitialNode(nodeType: Option<string>, r: real, self: nat): (n: Node)
    requires 0.0 <= r < 1.0
    ensures nodeType == Some("input") ==> n.bias == 0.0
    ensures nodeType != Some("input") ==> -0.1 <= n.bias < 0.1
    ensures n.nodeType == if nodeType.None? || nodeType == Some("") then "hidden" else nodeType.value
    ensures n.squash == Some(LOGISTIC) && n.mask == 1.0 && n.self == self
    ensures n.ins == [] && n.outs == [] && n.gated == []
    ensures n.activation == 0.0 && n.state == 0.0 && n.oldState == 0.0 && n.index == None
  {
    Node(if nodeType == Some("input") then 0.0 else r * 0.2 - 0.1, Some(LOGISTIC),
         if nodeType.None? || nodeType == Some("") then "hidden" else nodeType.value,
         0.0, 0.0, 0.0, 1.0, 0.0, 0.0, [], [], [], self, 0.0, 0.0, 0.0, None)
  }

  // ---------------------------------------------------------------------
  // The arena as a value

  datatype Store = Store(nodes: seq<Node>, conns: seq<Connection>)

  predicate IdsBelow(ids: seq<nat>, k: nat)
  {
    forall i :: 0 <= i < |ids| ==> ids[i] < k
  }

  /** Every reference a node holds points into `k` connections. */
  predicate NodeOk(n: Node, k: nat)
  {
    n.self < k && IdsBelow(n.ins, k) && IdsBelow(n.outs, k) && IdsBelow(n.gated, k)
  }

  /** Every reference a connection holds points into `k` nodes. */
  predicate ConnOk(c: Connection, k: nat)
  {
    c.from < k && c.to < k && (c.gater.Some? ==> c.gater.value < k)
  }

  /** Every reference in the store points into it. */
  predicate StoreOk(s: Store)
  {
    && (forall n :: 0 <= n < |s.nodes| ==> NodeOk(s.nodes[n], |s.conns|))
    && (forall c :: 0 <= c < |s.conns| ==> ConnOk(s.conns[c], |s.nodes|))
  }

  lemma AppendBelow(ids: seq<nat>, x: nat, k: nat)
    requires IdsBelow(ids, k) && x < k
    ensures IdsBelow(ids + [x], k)
  {
  }

  lemma SpliceBelow(ids: seq<nat>, i: int, k: nat)
    requires IdsBelow(ids, k) && -1 <= i
    ensures IdsBelow(SpliceAt(ids, i), k)
  {
    if 0 <= i < |ids| {
      DropBelow(ids, i, k);
    } else if i == -1 && |ids| > 0 {
      assert SpliceAt(ids, i) == ids[..|ids| - 1];
    }
  }

  lemma DropBelow(ids: seq<nat>, i: nat, k: nat)
    requires IdsBelow(ids, k) && i < |ids|
    ensures IdsBelow(ids[..i] + ids[i + 1..], k)
  {
    var r := ids[..i] + ids[i + 1..];
    forall j | 0 <= j < |r|
      ensures r[j] < k
    {
      if j < i {
        assert r[j] == ids[j];
      } else {
        assert r[j] == ids[j + 1];
      }
    }
  }

  lemma SetNodeOk(s: Store, i: nat, n: Node)
    requires StoreOk(s) && i < |s.nodes| && NodeOk(n, |s.conns|)
    ensures StoreOk(Store(s.nodes[i := n], s.conns))
  {
  }

  lemma SetConnOk(s: Store, i: nat, c: Connection)
    requires StoreOk(s) && i < |s.conns| && ConnOk(c, |s.nodes|)
    ensures StoreOk(Store(s.nodes, s.conns[i := c]))
  {
  }

  lemma AddConnOk(s: Store, c: Connection)
    requires StoreOk(s) && ConnOk(c, |s.nodes|)
    ensures StoreOk(Store(s.nodes, s.conns + [c]))
  {
    var t := Store(s.nodes, s.conns + [c]);
    forall n | 0 <= n < |t.nodes|
      ensures NodeOk(t.nodes[n], |t.conns|)
    {
      assert NodeOk(s.nodes[n], |s.conns|);
    }
  }

  lemma AddNodeOk(s: Store, n: Node, c: Connection)
    requires StoreOk(s) && NodeOk(n, |s.conns| + 1) && ConnOk(c, |s.nodes| + 1)
    ensures StoreOk(Store(s.nodes + [n], s.conns + [c]))
  {
    var t := Store(s.nodes + [n], s.conns + [c]);
    forall i | 0 <= i < |t.nodes|
      ensures NodeOk(t.nodes[i], |t.conns|)
    {
      if i < |s.nodes| {
        assert NodeOk(s.nodes[i], |s.conns|);
      }
    }
    forall i | 0 <= i < |t.conns|
      ensures ConnOk(t.conns[i], |t.nodes|)
    {
      if i < |s.conns| {
        assert ConnOk(s.conns[i], |s.nodes|);
      }
    }
  }

  /** `node.isProjectingTo(other)`. */
  predicate ProjectsTo(s: Store, a: nat, b: nat)
    requires StoreOk(s) && a < |s.nodes|
  {
    (a == b && s.conns[s.nodes[a].self].weight != 0.0)
    || exists i :: 0 <= i < |s.nodes[a].outs| && s.conns[s.nodes[a].outs[i]].to == b
  }

  /** `node.isProjectedBy(other)`. */
  predicate ProjectedBy(s: Store, a: nat, b: nat)
    requires StoreOk(s) && a < |s.nodes|
  {
    (a == b && s.conns[s.nodes[a].self].weight != 0.0)
    || exists i :: 0 <= i < |s.nodes[a].ins| && s.conns[s.nodes[a].ins[i]].from == b
  }

  /** The first position in `a`'s out-list of a connection to `b`, or -1. */
  function FirstOutTo(s: Store, a: nat, b: nat, from: nat): (i: int)
    requires StoreOk(s) && a < |s.nodes| && from <= |s.nodes[a].outs|
    ensures i == -1 || from <= i < |s.nodes[a].outs|
    ensures i == -1 <==> forall k :: from <= k < |s.nodes[a].outs| ==> s.conns[s.nodes[a].outs[k]].to != b
    ensures i != -1 ==> s.conns[s.nodes[a].outs[i]].to == b
                        && forall k :: from <= k < i ==> s.conns[s.nodes[a].outs[k]].to != b
    decreases |s.nodes[a].outs| - from
  {
    if from == |s.nodes[a].outs| then -1
    else if s.conns[s.nodes[a].outs[from]].to == b then from
    else FirstOutTo(s, a, b, from + 1)
  }

  /** Not projecting to another node is having no out-connection to it. */
  lemma NotProjecting(s: Store, a: nat, b: nat)
    requires StoreOk(s) && a < |s.nodes| && a != b
    ensures !ProjectsTo(s, a, b) <==> FirstOutTo(s, a, b, 0) == -1
  {
  }

  // The effect of each operation on the store.

  /** `connect`: a new connection from `from` to `to` (`from != to`). */
  function Connected(s: Store, from: nat, to: nat, weight: Option<real>, r: real): (t: Store)
    requires StoreOk(s) && from < |s.nodes| && to < |s.nodes| && from != to && 0.0 <= r < 1.0
    ensures StoreOk(t) && |t.nodes| == |s.nodes| && t.conns == s.conns + [NewConnection(from, to, weight, r)]
    ensures t.nodes[from].outs == s.nodes[from].outs + [|s.conns|]
    ensures t.nodes[to].ins == s.nodes[to].ins + [|s.conns|]
    ensures forall k :: 0 <= k < |s.nodes| && k != from ==> t.nodes[k].outs == s.nodes[k].outs
    ensures forall k :: 0 <= k < |s.nodes| && k != to ==> t.nodes[k].ins == s.nodes[k].ins
    ensures forall k :: 0 <= k < |s.nodes| ==>
              t.nodes[k] == s.nodes[k].(ins := t.nodes[k].ins, outs := t.nodes[k].outs)
  {
    var id := |s.conns|;
    var c := NewConnection(from, to, weight, r);
    AddConnOk(s, c);
    var s1 := Store(s.nodes, s.conns + [c]);
    AppendBelow(s1.nodes[to].ins, id, |s1.conns|);
    SetNodeOk(s1, to, s1.nodes[to].(ins := s1.nodes[to].ins + [id]));
    var s2 := Store(s1.nodes[to := s1.nodes[to].(ins := s1.nodes[to].ins + [id])], s1.conns);
    AppendBelow(s2.nodes[from].outs, id, |s2.conns|);
    SetNodeOk(s2, from, s2.nodes[from].(outs := s2.nodes[from].outs + [id]));
    Store(s2.nodes[from := s2.nodes[from].(outs := s2.nodes[from].outs + [id])], s2.conns)
  }

  /** `weight || 1`. */
  function OrOne(weight: Option<real>): real
  {
    if weight.None? || weight.value == 0.0 then 1.0 else weight.value
  }

  /** `connect(this)`: the self weight becomes `weight || 1` if it was 0. */
  function SelfConnected(s: Store, n: nat, weight: Option<real>): (t: Store)
    requires StoreOk(s) && n < |s.nodes|
    ensures StoreOk(t) && |t.nodes| == |s.nodes| && |t.conns| == |s.conns|
  {
    var c := s.nodes[n].self;
    if s.conns[c].weight != 0.0 then s
    else
      SetConnOk(s, c, s.conns[c].(weight := OrOne(weight)));
      Store(s.nodes, s.conns[c := s.conns[c].(weight := OrOne(weight))])
  }

  /** The store after `from.connect(to, weight)`, whichever way it goes. */
  function AfterConnect(s: Store, from: nat, to: nat, weight: Option<real>, r: real): (t: Store)
    requires StoreOk(s) && from < |s.nodes| && to < |s.nodes| && 0.0 <= r < 1.0
    ensures StoreOk(t) && |t.nodes| == |s.nodes| && |s.conns| <= |t.conns|
  {
    if from == to then SelfConnected(s, from, weight)
    else if ProjectsTo(s, from, to) then s
    else Connected(s, from, to, weight, r)
  }

  /** `gater.gate(c)` for one connection. */
  function GateOne(s: Store, g: nat, c: nat): (t: Store)
    requires StoreOk(s) && g < |s.nodes| && c < |s.conns|
    ensures StoreOk(t) && |t.nodes| == |s.nodes| && |t.conns| == |s.conns|
  {
    AppendBelow(s.nodes[g].gated, c, |s.conns|);
    SetNodeOk(s, g, s.nodes[g].(gated := s.nodes[g].gated + [c]));
    var s1 := Store(s.nodes[g := s.nodes[g].(gated := s.nodes[g].gated + [c])], s.conns);
    SetConnOk(s1, c, s1.conns[c].(gater := Some(g)));
    Store(s1.nodes, s1.conns[c := s1.conns[c].(gater := Some(g))])
  }

  /** `gater.ungate(c)` for one connection: `indexOf` is -1 when `c` is not
      in the list, and `splice(-1, 1)` then drops the last entry. */
  function UngateOne(s: Store, g: nat, c: nat): (t: Store)
    requires StoreOk(s) && g < |s.nodes| && c < |s.conns|
    ensures StoreOk(t) && |t.nodes| == |s.nodes| && |t.conns| == |s.conns|
  {
    var gated := s.nodes[g].gated;
    SpliceBelow(gated, IndexOf(gated, c), |s.conns|);
    SetNodeOk(s, g, s.nodes[g].(gated := SpliceAt(gated, IndexOf(gated, c))));
    var s1 := Store(s.nodes[g := s.nodes[g].(gated := SpliceAt(gated, IndexOf(gated, c)))], s.conns);
    SetConnOk(s1, c, s1.conns[c].(gater := None, gain := 1.0));
    Store(s1.nodes, s1.conns[c := s1.conns[c].(gater := None, gain := 1.0)])
  }

  /** `gate(connections)`: in list order. */
  function GateList(s: Store, g: nat, cs: seq<nat>): (t: Store)
    requires StoreOk(s) && g < |s.nodes| && IdsBelow(cs, |s.conns|)
    ensures StoreOk(t) && |t.nodes| == |s.nodes| && |t.conns| == |s.conns|
    decreases |cs|
  {
    if cs == [] then s else GateList(GateOne(s, g, cs[0]), g, cs[1..])
  }

  /** `ungate(connections)`: from the last to the first. */
  function UngateList(s: Store, g: nat, cs: seq<nat>): (t: Store)
    requires StoreOk(s) && g < |s.nodes| && IdsBelow(cs, |s.conns|)
    ensures StoreOk(t) && |t.nodes| == |s.nodes| && |t.conns| == |s.conns|
    decreases |cs|
  {
    if cs == [] then s else UngateList(UngateOne(s, g, cs[|cs| - 1]), g, cs[..|cs| - 1])
  }

  /** One round of `ungate(connections)`: the last of the first `i`
      connections goes first. */
  lemma UngateLast(s: Store, g: nat, cs: seq<nat>, i: nat)
    requires StoreOk(s) && g < |s.nodes| && IdsBelow(cs, |s.conns|) && 0 < i <= |cs|
    ensures UngateList(s, g, cs[..i]) == UngateList(UngateOne(s, g, cs[i - 1]), g, cs[..i - 1])
  {
    assert cs[..i][..i - 1] == cs[..i - 1];
  }

  /** `a.disconnect(b)` for `a != b`: the first connection from `a` to `b`
      leaves `a`'s out-list and `b`'s in-list and is ungated. */
  function DisconnectedOne(s: Store, a: nat, b: nat): (t: Store)
    requires StoreOk(s) && a < |s.nodes| && b < |s.nodes| && a != b
    ensures StoreOk(t) && |t.nodes| == |s.nodes| && |t.conns| == |s.conns|
  {
    var i := FirstOutTo(s, a, b, 0);
    if i == -1 then s
    else
      var c := s.nodes[a].outs[i];
      var s1 := Unlinked(s, a, b, i, c);
      if s1.conns[c].gater.Some? then UngateOne(s1, s1.conns[c].gater.value, c) else s1
  }

  /** Connection `c`, at position `i` of `a`'s out-list, leaves that list and
      `b`'s in-list. */
  function Unlinked(s: Store, a: nat, b: nat, i: nat, c: nat): (t: Store)
    requires StoreOk(s) && a < |s.nodes| && b < |s.nodes| && a != b && c < |s.conns|
    ensures StoreOk(t) && t.conns == s.conns && |t.nodes| == |s.nodes|
  {
    var outs := s.nodes[a].outs;
    SpliceBelow(outs, i, |s.conns|);
    SetNodeOk(s, a, s.nodes[a].(outs := SpliceAt(outs, i)));
    var s1 := Store(s.nodes[a := s.nodes[a].(outs := SpliceAt(outs, i))], s.conns);
    var ins := s1.nodes[b].ins;
    SpliceBelow(ins, IndexOf(ins, c), |s.conns|);
    SetNodeOk(s1, b, s1.nodes[b].(ins := SpliceAt(ins, IndexOf(ins, c))));
    Store(s1.nodes[b := s1.nodes[b].(ins := SpliceAt(ins, IndexOf(ins, c)))], s.conns)
  }

  /** `disconnect(this)`: the self weight becomes 0. */
  function SelfDisconnected(s: Store, n: nat): (t: Store)
    requires StoreOk(s) && n < |s.nodes|
    ensures StoreOk(t) && |t.nodes| == |s.nodes| && |t.conns| == |s.conns|
  {
    var c := s.nodes[n].self;
    SetConnOk(s, c, s.conns[c].(weight := 0.0));
    Store(s.nodes, s.conns[c := s.conns[c].(weight := 0.0)])
  }

  /** `a.disconnect(b, twosided)`. */
  function Disconnected(s: Store, a: nat, b: nat, twosided: bool): (t: Store)
    requires StoreOk(s) && a < |s.nodes| && b < |s.nodes|
    ensures StoreOk(t) && |t.nodes| == |s.nodes| && |t.conns| == |s.conns|
  {
    if a == b then SelfDisconnected(s, a)
    else if twosided then DisconnectedOne(DisconnectedOne(s, a, b), b, a)
    else DisconnectedOne(s, a, b)
  }

  /** The context `clear` resets on one connection: the eligibility and
      extended trace of an incoming connection, the gain of a gated one. */
  function ClearedConnection(c: Connection, incoming: bool, gated: bool): Connection
  {
    var c1 := if incoming then c.(eligibility := 0.0, xtrace := XTrace([], [])) else c;
    if gated then c1.(gain := 0.0) else c1
  }

  /** `node.clear()`. */
  function ClearedNode(n: Node): (m: Node)
    ensures m.responsibility == 0.0 && m.projected == 0.0 && m.gatedError == 0.0
    ensures m.oldState == 0.0 && m.state == 0.0 && m.activation == 0.0
    ensures m.ins == n.ins && m.outs == n.outs && m.gated == n.gated && m.self == n.self
    ensures m.bias == n.bias && m.squash == n.squash && m.nodeType == n.nodeType && m.mask == n.mask
  {
    n.(responsibility := 0.0, projected := 0.0, gatedError := 0.0, oldState := 0.0, state := 0.0, activation := 0.0)
  }

  /** The squash `MOD_ACTIVATION` picks: `allowed[(i + floor(r * (len - 1)) + 1) % len]`
      where `i` is the position of the current squash (-1 if absent);
      `undefined` for an empty list. */
  function NextSquash(allowed: seq<Squash>, current: Option<Squash>, r: real): (s: Option<Squash>)
    requires 0.0 <= r < 1.0
    ensures |allowed| > 0 ==> s.Some? && s.value in allowed
  {
    if |allowed| == 0 then None
    else
      var i := if current.None? then -1 else IndexOf(allowed, current.value);
      Some(allowed[(i + Offset(r, |allowed|) + 1) % |allowed|])
  }

  /** `Math.floor(Math.random() * (len - 1))`. */
  function Offset(r: real, len: nat): int
  {
    (r * ((len - 1) as real)).Floor
  }

  predicate DistinctSquashes(s: seq<Squash>)
  {
    forall i, j :: 0 <= i < j < |s| ==> s[i] != s[j]
  }

  /** The offset `floor(r * (len - 1))` lies in `[0, len - 1)`. */
  lemma StepBelow(r: real, len: nat)
    requires 0.0 <= r < 1.0 && len >= 2
    ensures 0 <= Offset(r, len) < len - 1
  {
    var m := (len - 1) as real;
    assert 0.0 <= r * m;
    assert m - r * m == (1.0 - r) * m;
    assert (1.0 - r) * m > 0.0;
  }

  lemma ModOnce(x: int, n: nat)
    requires 0 < n <= x < 2 * n
    ensures x % n == x - n
  {
    assert x == n * 1 + (x - n);
  }

  /** With at least two distinct functions to choose from, `MOD_ACTIVATION`
      never picks the current one. */
  lemma NextSquashChanges(allowed: seq<Squash>, current: Option<Squash>, r: real)
    requires 0.0 <= r < 1.0 && |allowed| >= 2 && DistinctSquashes(allowed)
    ensures NextSquash(allowed, current, r).Some?
    ensures NextSquash(allowed, current, r) != current
  {
    var len := |allowed|;
    StepBelow(r, len);
    var step := Offset(r, len);
    if current.Some? && current.value in allowed {
      var i := IndexOf(allowed, current.value);
      PickOther(allowed, i, step);
      assert NextSquash(allowed, current, r) == Some(allowed[(i + step + 1) % len]);
    } else if current.Some? {
      assert step % len == step;
      assert NextSquash(allowed, current, r) == Some(allowed[step]);
    }
  }

  lemma PickOther(allowed: seq<Squash>, i: nat, step: int)
    requires i < |allowed| && 0 <= step < |allowed| - 1 && DistinctSquashes(allowed)
    ensures allowed[(i + step + 1) % |allowed|] != allowed[i]
  {
    var len := |allowed|;
    var k := (i + step + 1) % len;
    if i + step + 1 < len {
      assert k == i + step + 1;
    } else {
      ModOnce(i + step + 1, len);
      assert k < i;
    }
  }

  // ---------------------------------------------------------------------
  // JSON

  /** The object `node.toJSON()` returns. */
  datatype NodeJSON = NodeJSON(bias: real, nodeType: string, squash: string, mask: real)

  /** `node.toJSON()`: reading `squash.name` of an `undefined` squash throws. */
  function NodeToJSON(n: Node): (j: Outcome<NodeJSON>)
    ensures j.Done? <==> n.squash.Some?
    ensures j.Done? ==> j.value.bias == n.bias && j.value.nodeType == n.nodeType && j.value.mask == n.mask
                        && j.value.squash == SquashName(n.squash.value)
  {
    if n.squash.None? then Throws else Done(NodeJSON(n.bias, n.nodeType, SquashName(n.squash.value), n.mask))
  }

  /** The node `Node.fromJSON(json)` builds, after `new Node()` with the bias
      draw `r`: the fields come from `json`, the squash by name. */
  function NodeFromJSON(json: NodeJSON, r: real, self: nat): (n: Node)
    requires 0.0 <= r < 1.0
    ensures n.bias == json.bias && n.nodeType == json.nodeType && n.mask == json.mask
    ensures n.squash == SquashByName(json.squash)
    ensures n.ins == [] && n.outs == [] && n.gated == [] && n.self == self
  {
    InitialNode(None, r, self).(bias := json.bias, nodeType := json.nodeType, mask := json.mask,
                                squash := SquashByName(json.squash))
  }

  /** `Node.fromJSON(node.toJSON())` has the bias, type, squash and mask of
      `node`. */
  lemma NodeJSONRoundTrip(n: Node, r: real, self: nat)
    requires 0.0 <= r < 1.0 && NodeToJSON(n).Done?
    ensures var m := NodeFromJSON(NodeToJSON(n).value, r, self);
            m.bias == n.bias && m.nodeType == n.nodeType && m.squash == n.squash && m.mask == n.mask
  {
    SquashNameRoundTrip(n.squash.value);
  }

  // ---------------------------------------------------------------------
  // Node operations on the arena

  class Graph {
    var nodes: seq<Node>
    var conns: seq<Connection>

    function State(): Store
      reads this
    {
      Store(nodes, conns)
    }

    predicate Valid()
      reads this
    {
      StoreOk(State())
    }

    constructor ()
      ensures nodes == [] && conns == [] && Valid()
    {
      nodes := [];
      conns := [];
    }

    /** `new Node(type)`: the node and its zero-weight self-connection. */
    method NewNode(nodeType: Option<string>, r: real) returns (id: nat)
      requires Valid() && 0.0 <= r < 1.0
      modifies this
      ensures Valid() && id == |old(nodes)|
      ensures nodes == old(nodes) + [InitialNode(nodeType, r, |old(conns)|)]
      ensures conns == old(conns) + [NewConnection(id, id, Some(0.0), 0.0)]
    {
      id := |nodes|;
      var self := |conns|;
      AddNodeOk(State(), InitialNode(nodeType, r, self), NewConnection(id, id, Some(0.0), 0.0));
      conns := conns + [NewConnection(id, id, Some(0.0), 0.0)];
      nodes := nodes + [InitialNode(nodeType, r, self)];
    }

    /** `isProjectingTo(node)`. */
    method IsProjectingTo(a: nat, b: nat) returns (p: bool)
      requires Valid() && a < |nodes|
      ensures p == ProjectsTo(State(), a, b)
    {
      if a == b && conns[nodes[a].self].weight != 0.0 {
        return true;
      }
      var outs := nodes[a].outs;
      var i := 0;
      while i < |outs|
        invariant i <= |outs|
        invariant forall k :: 0 <= k < i ==> conns[outs[k]].to != b
      {
        if conns[outs[i]].to == b {
          return true;
        }
        i := i + 1;
      }
      return false;
    }

    /** `isProjectedBy(node)`. */
    method IsProjectedBy(a: nat, b: nat) returns (p: bool)
      requires Valid() && a < |nodes|
      ensures p == ProjectedBy(State(), a, b)
    {
      if a == b && conns[nodes[a].self].weight != 0.0 {
        return true;
      }
      var ins := nodes[a].ins;
      var i := 0;
      while i < |ins|
        invariant i <= |ins|
        invariant forall k :: 0 <= k < i ==> conns[ins[k]].from != b
      {
        if conns[ins[i]].from == b {
          return true;
        }
        i := i + 1;
      }
      return false;
    }

    /** `from.connect(to, weight)` for a node target; `r` is the weight draw
        used when `weight` is `undefined`. Connecting a node to itself turns
        its self-connection on; connecting to a node it already projects to
        throws. The result is the connection made or reused. */
    method Connect(from: nat, to: nat, weight: Option<real>, r: real) returns (res: Outcome<nat>)
      requires Valid() && from < |nodes| && to < |nodes| && 0.0 <= r < 1.0
      modifies this
      ensures Valid()
      ensures from == to ==> res == Done(old(nodes)[from].self) && State() == SelfConnected(old(State()), from, weight)
      ensures from != to && ProjectsTo(old(State()), from, to) ==> res == Throws && State() == old(State())
      ensures from != to && !ProjectsTo(old(State()), from, to) ==>
                res == Done(|old(conns)|) && State() == Connected(old(State()), from, to, weight, r)
      ensures res.Done? ==> res.value < |conns| && ProjectsTo(State(), from, to)
      ensures State() == AfterConnect(old(State()), from, to, weight, r)
    {
      if from == to {
        var c := nodes[from].self;
        if conns[c].weight == 0.0 {
          SetConnOk(State(), c, conns[c].(weight := OrOne(weight)));
          conns := conns[c := conns[c].(weight := OrOne(weight))];
        }
        return Done(c);
      }
      var projecting := IsProjectingTo(from, to);
      if projecting {
        return Throws;
      }
      var id := |conns|;
      AddConnOk(State(), NewConnection(from, to, weight, r));
      conns := conns + [NewConnection(from, to, weight, r)];
      AppendBelow(nodes[to].ins, id, |conns|);
      SetNodeOk(State(), to, nodes[to].(ins := nodes[to].ins + [id]));
      nodes := nodes[to := nodes[to].(ins := nodes[to].ins + [id])];
      AppendBelow(nodes[from].outs, id, |conns|);
      SetNodeOk(State(), from, nodes[from].(outs := nodes[from].outs + [id]));
      nodes := nodes[from := nodes[from].(outs := nodes[from].outs + [id])];
      assert nodes[from].outs[|nodes[from].outs| - 1] == id;
      res := Done(id);
    }

    /** `gater.gate(connections)`. */
    method Gate(g: nat, cs: seq<nat>)
      requires Valid() && g < |nodes| && IdsBelow(cs, |conns|)
      modifies this
      ensures Valid() && State() == GateList(old(State()), g, cs)
    {
      var i := 0;
      while i < |cs|
        invariant i <= |cs| && Valid() && |nodes| == |old(nodes)| && |conns| == |old(conns)|
        invariant GateList(old(State()), g, cs) == GateList(State(), g, cs[i..])
      {
        assert cs[i..][1..] == cs[i + 1..];
        var c := cs[i];
        AppendBelow(nodes[g].gated, c, |conns|);
        SetNodeOk(State(), g, nodes[g].(gated := nodes[g].gated + [c]));
        nodes := nodes[g := nodes[g].(gated := nodes[g].gated + [c])];
        SetConnOk(State(), c, conns[c].(gater := Some(g)));
        conns := conns[c := conns[c].(gater := Some(g))];
        i := i + 1;
      }
    }

    /** `gater.ungate(connections)`: from the last connection to the first. */
    method Ungate(g: nat, cs: seq<nat>)
      requires Valid() && g < |nodes| && IdsBelow(cs, |conns|)
      modifies this
      ensures Valid() && State() == UngateList(old(State()), g, cs)
    {
      var i := |cs|;
      assert cs[..i] == cs;
      while i > 0
        invariant 0 <= i <= |cs| && Valid() && |nodes| == |old(nodes)| && |conns| == |old(conns)|
        invariant UngateList(old(State()), g, cs) == UngateList(State(), g, cs[..i])
      {
        UngateLast(State(), g, cs, i);
        UngateStep(g, cs[i - 1]);
        i := i - 1;
      }
    }

    /** One round of the loop of `ungate`. */
    method UngateStep(g: nat, c: nat)
      requires Valid() && g < |nodes| && c < |conns|
      modifies this
      ensures Valid() && State() == UngateOne(old(State()), g, c)
    {
      var index := IndexOf(nodes[g].gated, c);
      SpliceBelow(nodes[g].gated, index, |conns|);
      SetNodeOk(State(), g, nodes[g].(gated := SpliceAt(nodes[g].gated, index)));
      nodes := nodes[g := nodes[g].(gated := SpliceAt(nodes[g].gated, index))];
      SetConnOk(State(), c, conns[c].(gater := None, gain := 1.0));
      conns := conns[c := conns[c].(gater := None, gain := 1.0)];
    }

    /** `a.disconnect(b, twosided)`. */
    method Disconnect(a: nat, b: nat, twosided: bool)
      requires Valid() && a < |nodes| && b < |nodes|
      modifies this
      ensures Valid() && State() == Disconnected(old(State()), a, b, twosided)
    {
      if a == b {
        var c := nodes[a].self;
        SetConnOk(State(), c, conns[c].(weight := 0.0));
        conns := conns[c := conns[c].(weight := 0.0)];
        return;
      }
      DisconnectOne(a, b);
      if twosided {
        DisconnectOne(b, a);
      }
    }

    /** The loop of `disconnect` for another node. */
    method DisconnectOne(a: nat, b: nat)
      requires Valid() && a < |nodes| && b < |nodes| && a != b
      modifies this
      ensures Valid() && State() == DisconnectedOne(old(State()), a, b)
    {
      var outs := nodes[a].outs;
      var i := 0;
      while i < |outs| && conns[outs[i]].to != b
        invariant i <= |outs| && FirstOutTo(State(), a, b, 0) == FirstOutTo(State(), a, b, i)
      {
        i := i + 1;
      }
      if i == |outs| {
        return;
      }
      var c := outs[i];
      Unlink(a, b, i, c);
      if conns[c].gater.Some? {
        UngateStep(conns[c].gater.value, c);
      }
    }

    /** The two splices of `disconnect`. */
    method Unlink(a: nat, b: nat, i: nat, c: nat)
      requires Valid() && a < |nodes| && b < |nodes| && a != b && c < |conns|
      modifies this
      ensures Valid() && State() == Unlinked(old(State()), a, b, i, c)
    {
      SpliceBelow(nodes[a].outs, i, |conns|);
      SetNodeOk(State(), a, nodes[a].(outs := SpliceAt(nodes[a].outs, i)));
      nodes := nodes[a := nodes[a].(outs := SpliceAt(nodes[a].outs, i))];
      var j := IndexOf(nodes[b].ins, c);
      SpliceBelow(nodes[b].ins, j, |conns|);
      SetNodeOk(State(), b, nodes[b].(ins := SpliceAt(nodes[b].ins, j)));
      nodes := nodes[b := nodes[b].(ins := SpliceAt(nodes[b].ins, j))];
    }

    /** `node.clear()`. */
    method Clear(n: nat)
      requires Valid() && n < |nodes|
      modifies this
      ensures Valid() && |conns| == |old(conns)|
      ensures nodes == old(nodes)[n := ClearedNode(old(nodes)[n])]
      ensures forall c :: 0 <= c < |conns| ==>
                conns[c] == ClearedConnection(old(conns)[c], c in old(nodes)[n].ins, c in old(nodes)[n].gated)
    {
      var ins := nodes[n].ins;
      var gated := nodes[n].gated;
      var i := 0;
      while i < |ins|
        invariant i <= |ins| && Valid() && nodes == old(nodes) && |conns| == |old(conns)|
        invariant forall c :: 0 <= c < |conns| ==>
                    conns[c] == ClearedConnection(old(conns)[c], c in ins[..i], false)
      {
        var c := ins[i];
        SetConnOk(State(), c, conns[c].(eligibility := 0.0, xtrace := XTrace([], [])));
        conns := conns[c := conns[c].(eligibility := 0.0, xtrace := XTrace([], []))];
        assert ins[..i + 1] == ins[..i] + [c];
        i := i + 1;
      }
      assert ins[..i] == ins;
      i := 0;
      while i < |gated|
        invariant i <= |gated| && Valid() && nodes == old(nodes) && |conns| == |old(conns)|
        invariant forall c :: 0 <= c < |conns| ==>
                    conns[c] == ClearedConnection(old(conns)[c], c in ins, c in gated[..i])
      {
        var c := gated[i];
        SetConnOk(State(), c, conns[c].(gain := 0.0));
        conns := conns[c := conns[c].(gain := 0.0)];
        assert gated[..i + 1] == gated[..i] + [c];
        i := i + 1;
      }
      assert gated[..i] == gated;
      SetNodeOk(State(), n, ClearedNode(nodes[n]));
      nodes := nodes[n := ClearedNode(nodes[n])];
    }

    /** `node.mutate(method)`: an absent method or one outside the catalogue
        throws; `MOD_ACTIVATION` switches to another allowed squash and
        `MOD_BIAS` shifts the bias by `r * (max - min) + min`; other
        catalogue entries leave the node as it is. */
    method Mutate(n: nat, mutation: MethodArg, cat: Catalogue, r: real) returns (thrown: bool)
      requires Valid() && n < |nodes| && 0.0 <= r < 1.0
      modifies this
      ensures Valid() && conns == old(conns) && |nodes| == |old(nodes)|
      ensures thrown <==> !mutation.Catalogued?
      ensures mutation == Catalogued(MOD_ACTIVATION) ==>
                nodes == old(nodes)[n := old(nodes)[n].(squash := NextSquash(cat.allowed, old(nodes)[n].squash, r))]
      ensures mutation == Catalogued(MOD_BIAS) ==>
                nodes == old(nodes)[n := old(nodes)[n].(bias := old(nodes)[n].bias + (r * (cat.biasMax - cat.biasMin) + cat.biasMin))]
      ensures mutation != Catalogued(MOD_ACTIVATION) && mutation != Catalogued(MOD_BIAS) ==> nodes == old(nodes)
    {
      if !mutation.Catalogued? {
        return true;
      }
      thrown := false;
      match mutation.m
      case MOD_ACTIVATION =>
        SetNodeOk(State(), n, nodes[n].(squash := NextSquash(cat.allowed, nodes[n].squash, r)));
        nodes := nodes[n := nodes[n].(squash := NextSquash(cat.allowed, nodes[n].squash, r))];
      case MOD_BIAS =>
        var modification := r * (cat.biasMax - cat.biasMin) + cat.biasMin;
        SetNodeOk(State(), n, nodes[n].(bias := nodes[n].bias + modification));
        nodes := nodes[n := nodes[n].(bias := nodes[n].bias + modification)];
      case _ =>
    }

    /** `Node.fromJSON(json)`: a new node whose fields come from `json`. */
    method NewNodeFromJSON(json: NodeJSON, r: real) returns (id: nat)
      requires Valid() && 0.0 <= r < 1.0
      modifies this
      ensures Valid() && id == |old(nodes)|
      ensures nodes == old(nodes) + [NodeFromJSON(json, r, |old(conns)|)]
      ensures conns == old(conns) + [NewConnection(id, id, Some(0.0), 0.0)]
    {
      id := NewNode(None, r);
      var n := nodes[id].(bias := json.bias, nodeType := json.nodeType, mask := json.mask,
                          squash := SquashByName(json.squash));
      SetNodeOk(State(), id, n);
      nodes := nodes[id := n];
    }
  }

  // ---------------------------------------------------------------------
  // Properties of the operations

  /** Connecting and then disconnecting another node restores every node's
      lists; the arena keeps the dropped connection. */
  lemma ConnectThenDisconnect(s: Store, a: nat, b: nat, weight: Option<real>, r: real)
    requires StoreOk(s) && a < |s.nodes| && b < |s.nodes| && a != b && 0.0 <= r < 1.0
    requires !ProjectsTo(s, a, b)
    ensures DisconnectedOne(Connected(s, a, b, weight, r), a, b).nodes == s.nodes
  {
    var t := Connected(s, a, b, weight, r);
    var id := |s.conns|;
    NewConnectionFirst(s, a, b, weight, r);
    var i := |s.nodes[a].outs|;
    assert t.conns[id].gater == None;
    UnlinkNew(s, t, a, b, id);
  }

  /** The new connection is the first one from `a` to `b`. */
  lemma NewConnectionFirst(s: Store, a: nat, b: nat, weight: Option<real>, r: real)
    requires StoreOk(s) && a < |s.nodes| && b < |s.nodes| && a != b && 0.0 <= r < 1.0
    requires !ProjectsTo(s, a, b)
    ensures FirstOutTo(Connected(s, a, b, weight, r), a, b, 0) == |s.nodes[a].outs|
  {
    var t := Connected(s, a, b, weight, r);
    var id := |s.conns|;
    NotProjecting(s, a, b);
    var outs := t.nodes[a].outs;
    assert outs == s.nodes[a].outs + [id];
    forall k | 0 <= k < |outs| - 1
      ensures t.conns[outs[k]].to != b
    {
      assert outs[k] == s.nodes[a].outs[k];
    }
    assert t.conns[outs[|outs| - 1]].to == b;
  }

  /** Unlinking the last connection of `a`'s out-list and `b`'s in-list
      gives the lists back as they were before it was appended. */
  lemma UnlinkNew(s: Store, t: Store, a: nat, b: nat, id: nat)
    requires StoreOk(s) && StoreOk(t) && a < |s.nodes| && b < |s.nodes| && a != b
    requires id == |s.conns| && id < |t.conns| && |t.nodes| == |s.nodes|
    requires t.nodes == s.nodes[b := s.nodes[b].(ins := s.nodes[b].ins + [id])]
                               [a := s.nodes[a].(outs := s.nodes[a].outs + [id])]
    ensures Unlinked(t, a, b, |s.nodes[a].outs|, id).nodes == s.nodes
  {
    var outs, ins := s.nodes[a].outs, s.nodes[b].ins;
    assert t.nodes[a].outs == outs + [id] && t.nodes[b].ins == ins + [id];
    assert SpliceAt(outs + [id], |outs|) == outs;
    assert NodeOk(s.nodes[b], |s.conns|);
    IndexOfAppended(ins, id);
    assert SpliceAt(ins + [id], |ins|) == ins;
    UnlinkedNodes(t, a, b, |outs|, id);
  }

  /** Where `Unlinked` makes its two changes. */
  lemma UnlinkedNodes(s: Store, a: nat, b: nat, i: nat, c: nat)
    requires StoreOk(s) && a < |s.nodes| && b < |s.nodes| && a != b && c < |s.conns|
    ensures var ins := s.nodes[b].ins;
            Unlinked(s, a, b, i, c).nodes
              == s.nodes[a := s.nodes[a].(outs := SpliceAt(s.nodes[a].outs, i))][b := s.nodes[b].(ins := SpliceAt(ins, IndexOf(ins, c)))]
  {
  }

  lemma IndexOfAppended<T>(s: seq<T>, x: T)
    requires x !in s
    ensures IndexOf(s + [x], x) == |s|
  {
  }

  /** Gating a connection the node does not gate yet, then ungating it,
      restores the node's gated list and leaves the connection ungated with
      gain 1. */
  lemma GateThenUngate(s: Store, g: nat, c: nat)
    requires StoreOk(s) && g < |s.nodes| && c < |s.conns| && c !in s.nodes[g].gated
    ensures UngateOne(GateOne(s, g, c), g, c).nodes == s.nodes
    ensures UngateOne(GateOne(s, g, c), g, c).conns[c].gater == None
    ensures UngateOne(GateOne(s, g, c), g, c).conns[c].gain == 1.0
  {
    var gated := s.nodes[g].gated;
    IndexOfAppended(gated, c);
    assert SpliceAt(gated + [c], |gated|) == gated;
    var t := UngateOne(GateOne(s, g, c), g, c);
    assert t.nodes[g] == s.nodes[g];
  }
}

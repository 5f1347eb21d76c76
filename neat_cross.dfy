// Model of `Network.crossOver` (Javascript/NeatJS/src/architecture/
// network.js). The offspring is a new network whose node list is replaced
// by copies of parent nodes, position by position, and whose connections
// are rebuilt from the two parents' connection genes. A gene is keyed by
// the Cantor number of its end positions (`Connection.innovationID`), and a
// JavaScript object whose keys are such integers lists them in ascending
// order: a gene table is therefore a list of genes sorted by key.

module NeatCross {
  import opened NeatConnection
  import opened NeatNode
  import opened NeatMutation
  import opened NeatSerial
  import opened NeatNetwork
  import opened NeatLoad

  /** `network.score || 0`. */
  function ScoreOf(score: Option<real>): real
  {
    if score.Some? then score.value else 0.0
  }

  /** The offspring's node count: a draw `r` between the two parents'
      counts when `equal` is set or the scores tie, otherwise the count of
      the fitter parent (the second one when the first is not fitter). */
  function CrossSize(equal: bool, score1: real, score2: real, len1: nat, len2: nat, r: real): (size: nat)
    requires 0.0 <= r < 1.0
    ensures (if len1 < len2 then len1 else len2) <= size <= (if len1 < len2 then len2 else len1)
    ensures !equal && score1 > score2 ==> size == len1
    ensures !equal && score1 < score2 ==> size == len2
  {
    if equal || score1 == score2 then
      var hi := if len1 < len2 then len2 else len1;
      var lo := if len1 < len2 then len1 else len2;
      Drawn(r, hi - lo + 1, lo)
    else if score1 > score2 then len1 else len2
  }

  /** The parent node that offspring node `i` copies, `coin` being that
      round's draw. `None` is an `undefined` node. */
  function ParentNode(nodes1: seq<nat>, nodes2: seq<nat>, size: nat, output: nat, i: nat, coin: real): Option<nat>
  {
    if i < size - output then
      var first := if i < |nodes1| then Some(nodes1[i]) else None;
      var second := if i < |nodes2| then Some(nodes2[i]) else None;
      var node := if coin >= 0.5 then first else second;
      var other := if coin < 0.5 then first else second;
      if node.Some? then node else other
    else
      var nodes := if coin >= 0.5 then nodes1 else nodes2;
      var at := |nodes| + i - size;
      if 0 <= at < |nodes| then Some(nodes[at]) else None
  }

  /** Below `size - output` offspring node `i` copies the node at the same
      position of the parent the coin names, or of the other one when that
      parent has no node there; from there on the node at the same distance
      from the end of the parent the coin names. */
  lemma ParentPosition(nodes1: seq<nat>, nodes2: seq<nat>, size: nat, output: nat, i: nat, coin: real)
    ensures var n := ParentNode(nodes1, nodes2, size, output, i, coin);
      && (i < size - output ==> (n.Some? <==> i < |nodes1| || i < |nodes2|))
      && (i < size - output && n.Some? ==> (i < |nodes1| && n.value == nodes1[i]) || (i < |nodes2| && n.value == nodes2[i]))
      && (i < size - output && coin >= 0.5 && i < |nodes1| ==> n == Some(nodes1[i]))
      && (i < size - output && coin < 0.5 && i < |nodes2| ==> n == Some(nodes2[i]))
      && (size - output <= i < size && coin >= 0.5 ==>
            (n.Some? <==> size - i <= |nodes1|) && (n.Some? ==> n.value == nodes1[|nodes1| - (size - i)]))
      && (size - output <= i < size && coin < 0.5 ==>
            (n.Some? <==> size - i <= |nodes2|) && (n.Some? ==> n.value == nodes2[|nodes2| - (size - i)]))
  {
  }

  /** The parent nodes of the first `k` rounds of the node loop; the first
      `undefined` one throws. */
  function Chosen(nodes1: seq<nat>, nodes2: seq<nat>, size: nat, output: nat, coins: nat -> real, k: nat): (r: Outcome<seq<nat>>)
    ensures r.Done? ==> |r.value| == k
    ensures r.Done? ==> forall i :: 0 <= i < k ==> ParentNode(nodes1, nodes2, size, output, i, coins(i)) == Some(r.value[i])
    decreases k
  {
    if k == 0 then Done([])
    else
      var p := Chosen(nodes1, nodes2, size, output, coins, k - 1);
      var n := ParentNode(nodes1, nodes2, size, output, k - 1, coins(k - 1));
      if p.Throws? || n.None? then Throws else Done(p.value + [n.value])
  }

  /** A node that throws in some round throws the whole loop. */
  lemma {:induction false} ChosenThrowsOn(nodes1: seq<nat>, nodes2: seq<nat>, size: nat, output: nat, coins: nat -> real, k: nat, k': nat)
    requires k <= k' && Chosen(nodes1, nodes2, size, output, coins, k).Throws?
    ensures Chosen(nodes1, nodes2, size, output, coins, k').Throws?
    decreases k'
  {
    if k < k' {
      ChosenThrowsOn(nodes1, nodes2, size, output, coins, k, k' - 1);
    }
  }

  /** When both parents hold at least their `output` nodes and the size is
      at most the larger node count, no round meets an `undefined` node. */
  lemma {:induction false} ChosenDefined(nodes1: seq<nat>, nodes2: seq<nat>, size: nat, output: nat, coins: nat -> real, k: nat)
    requires output <= |nodes1| && output <= |nodes2| && (size <= |nodes1| || size <= |nodes2|) && k <= size
    ensures Chosen(nodes1, nodes2, size, output, coins, k).Done?
  {
    if k > 0 {
      ChosenDefined(nodes1, nodes2, size, output, coins, k - 1);
      ParentPosition(nodes1, nodes2, size, output, k - 1, coins(k - 1));
    }
  }

  /** Every chosen node is a node of one of the parents. */
  lemma ChosenFromParents(nodes1: seq<nat>, nodes2: seq<nat>, size: nat, output: nat, coins: nat -> real, k: nat, bound: nat)
    requires IdsBelow(nodes1, bound) && IdsBelow(nodes2, bound) && Chosen(nodes1, nodes2, size, output, coins, k).Done?
    ensures IdsBelow(Chosen(nodes1, nodes2, size, output, coins, k).value, bound)
  {
    var ps := Chosen(nodes1, nodes2, size, output, coins, k).value;
    forall i | 0 <= i < |ps|
      ensures ps[i] < bound
    {
      ParentPosition(nodes1, nodes2, size, output, i, coins(i));
    }
  }

  /** `new Node()` with the bias, squash and type of `parent` copied in;
      its own bias draw is overwritten and fixed at 0. */
  function CopyNode(parent: Node, self: nat): (n: Node)
    ensures n.bias == parent.bias && n.squash == parent.squash && n.nodeType == parent.nodeType
    ensures n.mask == 1.0 && n.ins == [] && n.outs == [] && n.gated == [] && n.self == self && n.index.None?
  {
    InitialNode(None, 0.0, self).(bias := parent.bias, squash := parent.squash, nodeType := parent.nodeType)
  }

  /** The arena after the node loop: a copy of each node of `src` named by
      `ps`, each with its zero self-connection. */
  function PushCopies(s: Store, src: Store, ps: seq<nat>): (t: Store)
    requires StoreOk(s) && IdsBelow(ps, |src.nodes|)
    ensures StoreOk(t) && |t.nodes| == |s.nodes| + |ps| && |t.conns| == |s.conns| + |ps|
    decreases |ps|
  {
    if ps == [] then s
    else
      var p := PushCopies(s, src, ps[..|ps| - 1]);
      var id := |p.nodes|;
      var n := CopyNode(src.nodes[ps[|ps| - 1]], |p.conns|);
      var c := NewConnection(id, id, Some(0.0), 0.0);
      AddNodeOk(p, n, c);
      Store(p.nodes + [n], p.conns + [c])
  }

  lemma CopyStep(s: Store, src: Store, ps: seq<nat>, q: nat)
    requires StoreOk(s) && IdsBelow(ps, |src.nodes|) && q < |src.nodes|
    ensures var p := PushCopies(s, src, ps);
            PushCopies(s, src, ps + [q])
              == Store(p.nodes + [CopyNode(src.nodes[q], |p.conns|)],
                       p.conns + [NewConnection(|p.nodes|, |p.nodes|, Some(0.0), 0.0)])
  {
    assert (ps + [q])[..|ps|] == ps;
  }

  /** The `k`-th copy is the node after the old arena's last, with the
      `k`-th new connection as its self-connection; the old nodes stay as
      they were. */
  lemma {:induction false} Copied(s: Store, src: Store, ps: seq<nat>, k: nat)
    requires StoreOk(s) && IdsBelow(ps, |src.nodes|) && k < |ps|
    ensures var t := PushCopies(s, src, ps);
            && t.nodes[|s.nodes| + k] == CopyNode(src.nodes[ps[k]], |s.conns| + k)
            && t.nodes[..|s.nodes|] == s.nodes
  {
    if k < |ps| - 1 {
      Copied(s, src, ps[..|ps| - 1], k);
    } else if |ps| > 1 {
      Copied(s, src, ps[..|ps| - 1], 0);
    }
  }

  // ---------------------------------------------------------------------
  // Gene tables

  /** A connection gene filed under the Cantor number of its ends. */
  datatype Gene = Gene(key: nat, data: ConnJSON)

  /** The keys of an object whose keys are integers, in the order
      `Object.keys` lists them. */
  predicate Sorted(m: seq<Gene>)
  {
    forall i, j :: 0 <= i < j < |m| ==> m[i].key < m[j].key
  }

  /** `map[key]`. */
  function Lookup(m: seq<Gene>, k: nat): (v: Option<ConnJSON>)
    ensures v.Some? ==> Gene(k, v.value) in m
    ensures v.None? ==> forall i :: 0 <= i < |m| ==> m[i].key != k
  {
    if m == [] then None else if m[0].key == k then Some(m[0].data) else Lookup(m[1..], k)
  }

  predicate Has(m: seq<Gene>, k: nat)
  {
    Lookup(m, k).Some?
  }

  /** `map[key] = data`: the key now reads `data`, every other key reads
      what it read, and the keys stay in ascending order. */
  function Put(m: seq<Gene>, k: nat, v: ConnJSON): (r: seq<Gene>)
    requires Sorted(m)
    ensures Sorted(r) && Lookup(r, k) == Some(v)
    ensures forall x :: x != k ==> Lookup(r, x) == Lookup(m, x)
    ensures forall i :: 0 <= i < |r| ==> r[i] == Gene(k, v) || r[i] in m
  {
    if m == [] then [Gene(k, v)]
    else if m[0].key == k then [Gene(k, v)] + m[1..]
    else if k < m[0].key then [Gene(k, v)] + m
    else
      var rest := Put(m[1..], k, v);
      TailAbove(m, rest, Gene(k, v));
      SortedPrepend([m[0]], rest, m[0].key);
      [m[0]] + rest
  }

  lemma TailAbove(m: seq<Gene>, rest: seq<Gene>, g: Gene)
    requires Sorted(m) && |m| > 0 && m[0].key < g.key
    requires forall i :: 0 <= i < |rest| ==> rest[i] == g || rest[i] in m[1..]
    ensures forall i :: 0 <= i < |rest| ==> m[0].key < rest[i].key
  {
    forall i | 0 <= i < |rest|
      ensures m[0].key < rest[i].key
    {
      if rest[i] != g {
        var j :| 0 <= j < |m[1..]| && m[1..][j] == rest[i];
        assert m[j + 1] == rest[i];
      }
    }
  }

  /** An entry whose ends are both positions is filed under their Cantor
      number; one with an `undefined` end is filed under `NaN`, and the
      connection loop skips it, so it is left out of the table. */
  function Filed(m: seq<Gene>, e: ConnJSON): (r: seq<Gene>)
    requires Sorted(m)
    ensures Sorted(r)
  {
    if e.from.At? && e.to.At? && e.from.i >= 0 && e.to.i >= 0 then Put(m, Pair(e.from.i, e.to.i), e) else m
  }

  /** `addConnectionsToMap` over the list `cs`, read from the numbered
      arena `t`: later entries overwrite earlier ones with the same key. */
  function Genes(t: Store, m: seq<Gene>, cs: seq<nat>): (r: seq<Gene>)
    requires StoreOk(t) && IdsBelow(cs, |t.conns|) && Sorted(m)
    ensures Sorted(r)
    decreases |cs|
  {
    if cs == [] then m else Genes(t, Filed(m, ConnEntry(t, cs[0])), cs[1..])
  }

  /** The gene table of a network: its connections, then its
      self-connections. */
  function Table(t: Store, f: NetworkFields): (r: seq<Gene>)
    requires FieldsOk(t, f)
    ensures Sorted(r)
  {
    Genes(t, Genes(t, [], f.connections), f.selfconns)
  }

  /** A table entry is stored under the Cantor number of its own ends. */
  predicate Keyed(m: seq<Gene>)
  {
    forall i :: 0 <= i < |m| ==>
      m[i].data.from.At? && m[i].data.to.At? && m[i].data.from.i >= 0 && m[i].data.to.i >= 0
      && m[i].key == Pair(m[i].data.from.i, m[i].data.to.i)
  }

  lemma {:induction false} GenesKeyed(t: Store, m: seq<Gene>, cs: seq<nat>)
    requires StoreOk(t) && IdsBelow(cs, |t.conns|) && Sorted(m) && Keyed(m)
    ensures Keyed(Genes(t, m, cs))
    decreases |cs|
  {
    if cs != [] {
      GenesKeyed(t, Filed(m, ConnEntry(t, cs[0])), cs[1..]);
    }
  }

  /** A key stays in the table once filed. */
  lemma {:induction false} GenesKeep(t: Store, m: seq<Gene>, cs: seq<nat>, k: nat)
    requires StoreOk(t) && IdsBelow(cs, |t.conns|) && Sorted(m) && Has(m, k)
    ensures Has(Genes(t, m, cs), k)
    decreases |cs|
  {
    if cs != [] {
      GenesKeep(t, Filed(m, ConnEntry(t, cs[0])), cs[1..], k);
    }
  }

  /** Every connection of the list whose ends are numbered has a gene. */
  lemma {:induction false} GenesHave(t: Store, m: seq<Gene>, cs: seq<nat>, q: nat)
    requires StoreOk(t) && IdsBelow(cs, |t.conns|) && Sorted(m) && q < |cs|
    requires var e := ConnEntry(t, cs[q]); e.from.At? && e.to.At?
    ensures var e := ConnEntry(t, cs[q]); Has(Genes(t, m, cs), Pair(e.from.i, e.to.i))
    decreases |cs|
  {
    var e := ConnEntry(t, cs[q]);
    assert e.from.i >= 0 && e.to.i >= 0;
    if q == 0 {
      GenesKeep(t, Filed(m, e), cs[1..], Pair(e.from.i, e.to.i));
    } else {
      assert cs[1..][q - 1] == cs[q];
      GenesHave(t, Filed(m, ConnEntry(t, cs[0])), cs[1..], q - 1);
    }
  }

  /** Every gene of the table is the entry of one of its connections, or
      was there before. */
  lemma {:induction false} GenesFrom(t: Store, m: seq<Gene>, cs: seq<nat>, k: nat)
    requires StoreOk(t) && IdsBelow(cs, |t.conns|) && Sorted(m)
    ensures var v := Lookup(Genes(t, m, cs), k);
            v.Some? ==> v == Lookup(m, k) || exists q :: 0 <= q < |cs| && v.value == ConnEntry(t, cs[q])
    decreases |cs|
  {
    if cs != [] {
      var m' := Filed(m, ConnEntry(t, cs[0]));
      GenesFrom(t, m', cs[1..], k);
      var v := Lookup(Genes(t, m, cs), k);
      if v.Some? && v != Lookup(m, k) {
        if v == Lookup(m', k) {
          assert v.value == ConnEntry(t, cs[0]);
        } else {
          var q :| 0 <= q < |cs[1..]| && v.value == ConnEntry(t, cs[1..][q]);
          assert cs[1..][q] == cs[q + 1];
        }
      }
    }
  }

  // ---------------------------------------------------------------------
  // Choosing the genes

  /** `keys1.forEach`: a gene both parents have is taken from the parent
      the draw `pick(key)` names, a gene only the first has is taken when
      `keep1` holds. */
  function FromFirst(m1: seq<Gene>, m2: seq<Gene>, keep1: bool, pick: nat -> real): (r: seq<Gene>)
    decreases |m1|
  {
    if m1 == [] then [] else FirstHead(m1[0], m2, keep1, pick) + FromFirst(m1[1..], m2, keep1, pick)
  }

  /** What one key of the first parent contributes. */
  function FirstHead(g: Gene, m2: seq<Gene>, keep1: bool, pick: nat -> real): seq<Gene>
  {
    var other := Lookup(m2, g.key);
    if other.Some? then [if pick(g.key) >= 0.5 then g else Gene(g.key, other.value)]
    else if keep1 then [g] else []
  }

  /** `keys2.forEach` after the shared keys were deleted: the genes only
      the second parent has, taken when `keep2` holds. */
  function FromSecond(m2: seq<Gene>, m1: seq<Gene>, keep2: bool): (r: seq<Gene>)
    decreases |m2|
  {
    if m2 == [] then []
    else
      var head := if keep2 && !Has(m1, m2[0].key) then [m2[0]] else [];
      head + FromSecond(m2[1..], m1, keep2)
  }

  /** The genes the offspring receives, in the order they are added. */
  function Selected(m1: seq<Gene>, m2: seq<Gene>, score1: real, score2: real, equal: bool, pick: nat -> real): seq<Gene>
  {
    FromFirst(m1, m2, score1 >= score2 || equal, pick) + FromSecond(m2, m1, score2 >= score1 || equal)
  }

  lemma LookupAppend(a: seq<Gene>, b: seq<Gene>, k: nat)
    ensures Lookup(a + b, k) == if Has(a, k) then Lookup(a, k) else Lookup(b, k)
  {
    if a != [] {
      assert (a + b)[1..] == a[1..] + b;
      LookupAppend(a[1..], b, k);
    } else {
      assert a + b == b;
    }
  }

  lemma {:induction false} FirstKeys(m1: seq<Gene>, m2: seq<Gene>, keep1: bool, pick: nat -> real, k: nat)
    ensures var v := Lookup(FromFirst(m1, m2, keep1, pick), k);
            && (v.Some? <==> Has(m1, k) && (Has(m2, k) || keep1))
            && (v.Some? ==> v == Lookup(m1, k) || v == Lookup(m2, k))
            && (v.Some? && !Has(m2, k) ==> v == Lookup(m1, k))
    decreases |m1|
  {
    if m1 != [] {
      var g := m1[0];
      var head := FirstHead(g, m2, keep1, pick);
      FirstKeys(m1[1..], m2, keep1, pick, k);
      LookupAppend(head, FromFirst(m1[1..], m2, keep1, pick), k);
    }
  }

  lemma {:induction false} SecondKeys(m2: seq<Gene>, m1: seq<Gene>, keep2: bool, k: nat)
    ensures var v := Lookup(FromSecond(m2, m1, keep2), k);
            && (v.Some? <==> keep2 && Has(m2, k) && !Has(m1, k))
            && (v.Some? ==> v == Lookup(m2, k))
    decreases |m2|
  {
    if m2 != [] {
      var head := if keep2 && !Has(m1, m2[0].key) then [m2[0]] else [];
      SecondKeys(m2[1..], m1, keep2, k);
      LookupAppend(head, FromSecond(m2[1..], m1, keep2), k);
    }
  }

  /** The offspring receives a gene for a key exactly when both parents
      have it, or the first has it and is at least as fit, or the second
      has it and is at least as fit (`equal` counting as both); the gene is
      one of the parents' genes for that key, the only one when just one
      parent has it. */
  lemma SelectedKeys(m1: seq<Gene>, m2: seq<Gene>, score1: real, score2: real, equal: bool, pick: nat -> real, k: nat)
    ensures var v := Lookup(Selected(m1, m2, score1, score2, equal, pick), k);
            && (v.Some? <==> (Has(m1, k) && Has(m2, k))
                             || (Has(m1, k) && (score1 >= score2 || equal))
                             || (Has(m2, k) && (score2 >= score1 || equal)))
            && (v.Some? ==> v == Lookup(m1, k) || v == Lookup(m2, k))
            && (v.Some? && !Has(m2, k) ==> v == Lookup(m1, k))
            && (v.Some? && !Has(m1, k) ==> v == Lookup(m2, k))
  {
    var keep1, keep2 := score1 >= score2 || equal, score2 >= score1 || equal;
    FirstKeys(m1, m2, keep1, pick, k);
    SecondKeys(m2, m1, keep2, k);
    LookupAppend(FromFirst(m1, m2, keep1, pick), FromSecond(m2, m1, keep2), k);
  }

  /** Every key of a sorted table's tail lies above its head's key. */
  lemma HasAbove(m: seq<Gene>, k: nat)
    requires Sorted(m) && |m| > 0 && Has(m[1..], k)
    ensures m[0].key < k
  {
    var j :| 0 <= j < |m[1..]| && m[1..][j] == Gene(k, Lookup(m[1..], k).value);
    assert m[j + 1].key == k;
  }

  lemma SortedPrepend(head: seq<Gene>, rest: seq<Gene>, k: nat)
    requires |head| <= 1 && (forall i :: 0 <= i < |head| ==> head[i].key == k)
    requires Sorted(rest) && forall i :: 0 <= i < |rest| ==> k < rest[i].key
    ensures Sorted(head + rest)
  {
  }

  /** The genes the first loop takes are in ascending key order, all of
      them keys of the first table. */
  lemma {:induction false} FirstSorted(m1: seq<Gene>, m2: seq<Gene>, keep1: bool, pick: nat -> real)
    requires Sorted(m1)
    ensures var r := FromFirst(m1, m2, keep1, pick);
            Sorted(r) && forall i :: 0 <= i < |r| ==> Has(m1, r[i].key)
    decreases |m1|
  {
    if m1 != [] {
      var g := m1[0];
      var head := FirstHead(g, m2, keep1, pick);
      var rest := FromFirst(m1[1..], m2, keep1, pick);
      assert FromFirst(m1, m2, keep1, pick) == head + rest;
      FirstSorted(m1[1..], m2, keep1, pick);
      forall i | 0 <= i < |rest|
        ensures g.key < rest[i].key && Has(m1, rest[i].key)
      {
        HasAbove(m1, rest[i].key);
      }
      SortedPrepend(head, rest, g.key);
      assert Has(m1, g.key);
    }
  }

  /** The genes the second loop takes are in ascending key order, none of
      them a key of the first table. */
  lemma {:induction false} SecondSorted(m2: seq<Gene>, m1: seq<Gene>, keep2: bool)
    requires Sorted(m2)
    ensures var r := FromSecond(m2, m1, keep2);
            Sorted(r) && forall i :: 0 <= i < |r| ==> Has(m2, r[i].key) && !Has(m1, r[i].key)
    decreases |m2|
  {
    if m2 != [] {
      var rest := FromSecond(m2[1..], m1, keep2);
      SecondSorted(m2[1..], m1, keep2);
      forall i | 0 <= i < |rest|
        ensures m2[0].key < rest[i].key && Has(m2, rest[i].key)
      {
        HasAbove(m2, rest[i].key);
      }
    }
  }

  /** No key is handed to the offspring twice. */
  predicate Unique(r: seq<Gene>)
  {
    forall i, j :: 0 <= i < j < |r| ==> r[i].key != r[j].key
  }

  lemma SelectedUnique(m1: seq<Gene>, m2: seq<Gene>, score1: real, score2: real, equal: bool, pick: nat -> real)
    requires Sorted(m1) && Sorted(m2)
    ensures Unique(Selected(m1, m2, score1, score2, equal, pick))
  {
    var a := FromFirst(m1, m2, score1 >= score2 || equal, pick);
    var b := FromSecond(m2, m1, score2 >= score1 || equal);
    FirstSorted(m1, m2, score1 >= score2 || equal, pick);
    SecondSorted(m2, m1, score2 >= score1 || equal);
    var r := a + b;
    forall i, j | 0 <= i < j < |r|
      ensures r[i].key != r[j].key
    {
      if j < |a| {
      } else if i >= |a| {
        assert r[i] == b[i - |a|] && r[j] == b[j - |a|];
      } else {
        assert r[i] == a[i] && r[j] == b[j - |a|];
      }
    }
  }

  // ---------------------------------------------------------------------
  // Building the offspring's connections

  /** The gater position the offspring uses: one below `size` names a node
      of the offspring, anything else leaves the connection ungated. */
  function Gatable(e: ConnJSON, nodes: seq<nat>): (d: ConnJSON)
    ensures d.weight == e.weight && d.from == e.from && d.to == e.to
    ensures Resolve(nodes, d.gater) == Resolve(nodes, e.gater)
    ensures d.gater.Null? || Resolve(nodes, d.gater).Some?
  {
    if Resolve(nodes, e.gater).Some? then e else e.(gater := Null)
  }

  /** One gene of the connection loop: skipped unless both ends are
      positions below the offspring's size, then connected and weighted,
      and gated when its gater is a position below the size too. Only a
      pair of distinct nodes already connected throws. */
  function CrossConn(s: Store, f: NetworkFields, e: ConnJSON): (r: Outcome<(Store, NetworkFields)>)
    requires FieldsOk(s, f)
    ensures Resolve(f.nodes, e.from).None? || Resolve(f.nodes, e.to).None? ==> r == Done((s, f))
    ensures r.Throws? <==>
              && Resolve(f.nodes, e.from).Some? && Resolve(f.nodes, e.to).Some?
              && Resolve(f.nodes, e.from) != Resolve(f.nodes, e.to)
              && ProjectsTo(s, Resolve(f.nodes, e.from).value, Resolve(f.nodes, e.to).value)
    ensures r.Done? ==> FieldsOk(r.value.0, r.value.1) && |r.value.0.nodes| == |s.nodes| && r.value.1.nodes == f.nodes
    ensures r.Done? ==> forall n :: 0 <= n < |s.nodes| ==> NodeToJSON(r.value.0.nodes[n]) == NodeToJSON(s.nodes[n])
    ensures r.Done? && Resolve(f.nodes, e.from).Some? && Resolve(f.nodes, e.to).Some?
            && Resolve(f.nodes, e.from) != Resolve(f.nodes, e.to) ==>
              var c := |s.conns|;
              && r.value.1.connections == f.connections + [c] && c < |r.value.0.conns|
              && r.value.0.conns[c].from == Resolve(f.nodes, e.from).value
              && r.value.0.conns[c].to == Resolve(f.nodes, e.to).value
              && r.value.0.conns[c].weight == e.weight
              && r.value.0.conns[c].gater == Resolve(f.nodes, e.gater)
  {
    if Resolve(f.nodes, e.from).None? || Resolve(f.nodes, e.to).None? then Done((s, f))
    else LoadConn(s, f, Gatable(e, f.nodes))
  }

  /** The connection loop over the chosen genes, stopping at the first
      throw. */
  function CrossConns(s: Store, f: NetworkFields, gs: seq<Gene>): (r: Outcome<(Store, NetworkFields)>)
    requires FieldsOk(s, f)
    ensures r.Done? ==> FieldsOk(r.value.0, r.value.1) && |r.value.0.nodes| == |s.nodes| && r.value.1.nodes == f.nodes
    ensures r.Done? ==> r.value.1 == f.(connections := r.value.1.connections, selfconns := r.value.1.selfconns,
                                       gates := r.value.1.gates)
    ensures r.Done? ==> forall n :: 0 <= n < |s.nodes| ==> NodeToJSON(r.value.0.nodes[n]) == NodeToJSON(s.nodes[n])
    decreases |gs|
  {
    if gs == [] then Done((s, f))
    else
      var r := CrossConn(s, f, gs[0].data);
      if r.Throws? then Throws
      else
        assert r.value.1 == f.(connections := r.value.1.connections, selfconns := r.value.1.selfconns,
                               gates := r.value.1.gates);
        CrossConns(r.value.0, r.value.1, gs[1..])
  }

  // ---------------------------------------------------------------------
  // The whole operation

  /** The arena after both parents were numbered: first `f1.nodes`, then
      `f2.nodes`. */
  function Numbered2(s: Store, f1: NetworkFields, f2: NetworkFields): (t: Store)
    requires StoreOk(s) && IdsBelow(f1.nodes, |s.nodes|) && IdsBelow(f2.nodes, |s.nodes|)
    ensures StoreOk(t) && |t.nodes| == |s.nodes| && t.conns == s.conns
  {
    IndexedUpTo(IndexedUpTo(s, f1.nodes, |f1.nodes|), f2.nodes, |f2.nodes|)
  }

  /** The offspring's node count. */
  function SizeOf(f1: NetworkFields, f2: NetworkFields, equal: bool, r: real): nat
    requires 0.0 <= r < 1.0
  {
    CrossSize(equal, ScoreOf(f1.score), ScoreOf(f2.score), |f1.nodes|, |f2.nodes|, r)
  }

  /** `crossOver(network1, network2, equal)` once `new Network` built the
      arena `s` and the offspring's fields `fo`: `r` is the size draw,
      `coins` the node draws by position and `pick` the gene draws by
      key. */
  function Bred(s: Store, fo: NetworkFields, f1: NetworkFields, f2: NetworkFields, equal: bool,
                r: real, coins: nat -> real, pick: nat -> real): (res: Outcome<(Store, NetworkFields)>)
    requires FieldsOk(s, fo) && FieldsOk(s, f1) && FieldsOk(s, f2) && 0.0 <= r < 1.0
    ensures res.Done? ==> FieldsOk(res.value.0, res.value.1)
    ensures res.Done? ==> res.value.1.nodes == Range(|s.nodes|, SizeOf(f1, f2, equal, r))
    ensures res.Done? ==> res.value.1 == fo.(nodes := res.value.1.nodes, connections := res.value.1.connections,
                                            selfconns := res.value.1.selfconns, gates := res.value.1.gates)
  {
    var size := SizeOf(f1, f2, equal, r);
    var t := Numbered2(s, f1, f2);
    var ps := Chosen(f1.nodes, f2.nodes, size, f1.output, coins, size);
    if ps.Throws? then Throws
    else
      ChosenFromParents(f1.nodes, f2.nodes, size, f1.output, coins, size, |t.nodes|);
      var u := PushCopies(t, t, ps.value);
      WireGenes(u, fo, f1, f2, |s.nodes|, size, equal, pick)
  }

  /** The gene tables of the numbered parents, the genes chosen from them,
      and the connection loop over the offspring's new nodes. */
  function WireGenes(u: Store, fo: NetworkFields, f1: NetworkFields, f2: NetworkFields, base: nat, size: nat,
                 equal: bool, pick: nat -> real): (res: Outcome<(Store, NetworkFields)>)
    requires StoreOk(u) && FieldsOk(u, fo) && FieldsOk(u, f1) && FieldsOk(u, f2) && base + size <= |u.nodes|
    ensures res.Done? ==> FieldsOk(res.value.0, res.value.1) && res.value.1.nodes == Range(base, size)
    ensures res.Done? ==> |res.value.0.nodes| == |u.nodes|
    ensures res.Done? ==> forall n :: 0 <= n < |u.nodes| ==> NodeToJSON(res.value.0.nodes[n]) == NodeToJSON(u.nodes[n])
    ensures res.Done? ==> res.value.1 == fo.(nodes := res.value.1.nodes, connections := res.value.1.connections,
                                            selfconns := res.value.1.selfconns, gates := res.value.1.gates)
  {
    var genes := Selected(Table(u, f1), Table(u, f2), ScoreOf(f1.score), ScoreOf(f2.score), equal, pick);
    assert IdsBelow(Range(base, size), |u.nodes|);
    CrossConns(u, fo.(nodes := Range(base, size), connections := []), genes)
  }

  /** A copy serializes as its parent node with mask 1. */
  lemma CopyJSON(parent: Node, self: nat)
    ensures NodeToJSON(CopyNode(parent, self)) == NodeToJSON(parent.(mask := 1.0))
  {
  }

  /** Copy `k` serializes as its parent with mask 1, and so as any node
      that agrees with the parent on what serializes. */
  lemma CopyKeeps(t: Store, ps: seq<nat>, k: nat, original: Node)
    requires StoreOk(t) && IdsBelow(ps, |t.nodes|) && k < |ps|
    requires var p := t.nodes[ps[k]];
             p.bias == original.bias && p.squash == original.squash && p.nodeType == original.nodeType
    ensures NodeToJSON(PushCopies(t, t, ps).nodes[|t.nodes| + k]) == NodeToJSON(original.(mask := 1.0))
  {
    Copied(t, t, ps, k);
    CopyJSON(t.nodes[ps[k]], |t.conns| + k);
  }

  /** Numbering changes a node's `index` and nothing a copy keeps. */
  lemma NumberedFrame(s: Store, f1: NetworkFields, f2: NetworkFields, q: nat)
    requires StoreOk(s) && IdsBelow(f1.nodes, |s.nodes|) && IdsBelow(f2.nodes, |s.nodes|) && q < |s.nodes|
    ensures var n := Numbered2(s, f1, f2).nodes[q];
            n.bias == s.nodes[q].bias && n.squash == s.nodes[q].squash && n.nodeType == s.nodes[q].nodeType
  {
    var t1 := IndexedUpTo(s, f1.nodes, |f1.nodes|);
    IndexedFrame(s, f1.nodes, |f1.nodes|);
    IndexedFrame(t1, f2.nodes, |f2.nodes|);
  }

  /** Offspring node `k` is a copy of the parent node its round chose: it
      serializes as that node with mask 1. */
  lemma OffspringNodes(s: Store, fo: NetworkFields, f1: NetworkFields, f2: NetworkFields, equal: bool,
                       r: real, coins: nat -> real, pick: nat -> real, k: nat)
    requires FieldsOk(s, fo) && FieldsOk(s, f1) && FieldsOk(s, f2) && 0.0 <= r < 1.0
    requires Bred(s, fo, f1, f2, equal, r, coins, pick).Done? && k < |Bred(s, fo, f1, f2, equal, r, coins, pick).value.1.nodes|
    ensures var (t, f) := Bred(s, fo, f1, f2, equal, r, coins, pick).value;
            var p := ParentNode(f1.nodes, f2.nodes, SizeOf(f1, f2, equal, r), f1.output, k, coins(k));
            && p.Some? && p.value < |s.nodes|
            && NodeToJSON(t.nodes[f.nodes[k]]) == NodeToJSON(s.nodes[p.value].(mask := 1.0))
  {
    var size := SizeOf(f1, f2, equal, r);
    var t := Numbered2(s, f1, f2);
    var ps := Chosen(f1.nodes, f2.nodes, size, f1.output, coins, size).value;
    ChosenFromParents(f1.nodes, f2.nodes, size, f1.output, coins, size, |s.nodes|);
    NumberedFrame(s, f1, f2, ps[k]);
    CopyKeeps(t, ps, k, s.nodes[ps[k]]);
    var u := PushCopies(t, t, ps);
    PushedFits(s, fo, f1, f2, size, coins);
    var (v, f) := WireGenes(u, fo, f1, f2, |s.nodes|, size, equal, pick).value;
    assert f.nodes[k] == |s.nodes| + k;
  }

  /** The arena after the copies holds the fields of both parents and of
      the offspring, and the copies themselves. */
  lemma PushedFits(s: Store, fo: NetworkFields, f1: NetworkFields, f2: NetworkFields, size: nat, coins: nat -> real)
    requires FieldsOk(s, fo) && FieldsOk(s, f1) && FieldsOk(s, f2)
    requires Chosen(f1.nodes, f2.nodes, size, f1.output, coins, size).Done?
    ensures var t := Numbered2(s, f1, f2);
            var u := PushCopies(t, t, Chosen(f1.nodes, f2.nodes, size, f1.output, coins, size).value);
            StoreOk(u) && FieldsOk(u, fo) && FieldsOk(u, f1) && FieldsOk(u, f2) && |s.nodes| + size <= |u.nodes|
  {
    var t := Numbered2(s, f1, f2);
    ChosenFromParents(f1.nodes, f2.nodes, size, f1.output, coins, size, |t.nodes|);
  }

  // ---------------------------------------------------------------------
  // The operation

  /** `nodes.forEach((node, i) => { node.index = i; })` on the arena's
      value. */
  method NumberValues(s: Store, nodes: seq<nat>) returns (t: Store)
    requires StoreOk(s) && IdsBelow(nodes, |s.nodes|)
    ensures t == IndexedUpTo(s, nodes, |nodes|)
  {
    t := s;
    var i := 0;
    while i < |nodes|
      invariant i <= |nodes| && t == IndexedUpTo(s, nodes, i)
    {
      t := SetIndex(t, nodes[i], i);
      i := i + 1;
    }
  }

  /** The parent nodes of the node loop, round by round; an `undefined`
      parent node throws. The copies are made by `CopyValues`: the model
      does not describe the arena after a throw, so the two halves of each
      round can run as two loops. */
  method ChooseValues(nodes1: seq<nat>, nodes2: seq<nat>, size: nat, output: nat, coins: nat -> real)
    returns (ps: seq<nat>, thrown: bool)
    ensures thrown <==> Chosen(nodes1, nodes2, size, output, coins, size).Throws?
    ensures !thrown ==> Chosen(nodes1, nodes2, size, output, coins, size) == Done(ps)
  {
    ps := [];
    var i: nat := 0;
    while i < size
      invariant i <= size && Chosen(nodes1, nodes2, size, output, coins, i) == Done(ps)
    {
      var n := ParentNode(nodes1, nodes2, size, output, i, coins(i));
      if n.None? {
        ChosenThrowsOn(nodes1, nodes2, size, output, coins, i + 1, size);
        return ps, true;
      }
      ps := ps + [n.value];
      i := i + 1;
    }
    thrown := false;
  }

  /** The copying half of the node loop on the arena's value: round `i`
      copies the parent node `ps[i]` into a new node. */
  method CopyValues(s: Store, ps: seq<nat>) returns (t: Store, ids: seq<nat>)
    requires StoreOk(s) && IdsBelow(ps, |s.nodes|)
    ensures t == PushCopies(s, s, ps) && ids == Range(|s.nodes|, |ps|)
  {
    t := s;
    ids := [];
    var i: nat := 0;
    while i < |ps|
      invariant i <= |ps| && t == PushCopies(s, s, ps[..i])
      invariant |t.nodes| == |s.nodes| + i && ids == Range(|s.nodes|, i)
    {
      CopyStep(s, s, ps[..i], ps[i]);
      assert ps[..i + 1] == ps[..i] + [ps[i]];
      RangeAppend(ids, |s.nodes|, i, |t.nodes|);
      ids := ids + [|t.nodes|];
      t := Store(t.nodes + [CopyNode(s.nodes[ps[i]], |t.conns|)],
                 t.conns + [NewConnection(|t.nodes|, |t.nodes|, Some(0.0), 0.0)]);
      i := i + 1;
    }
    assert ps[..i] == ps;
  }

  /** `addConnectionsToMap` for one list of connections. */
  method TableValues(t: Store, m: seq<Gene>, cs: seq<nat>) returns (r: seq<Gene>)
    requires StoreOk(t) && IdsBelow(cs, |t.conns|) && Sorted(m)
    ensures r == Genes(t, m, cs)
  {
    r := m;
    var i := 0;
    while i < |cs|
      invariant i <= |cs| && Sorted(r) && Genes(t, m, cs) == Genes(t, r, cs[i..])
    {
      assert cs[i..][1..] == cs[i + 1..];
      r := Filed(r, ConnEntry(t, cs[i]));
      i := i + 1;
    }
  }

  /** The loop over the first parent's keys. */
  method FirstValues(m1: seq<Gene>, m2: seq<Gene>, keep1: bool, pick: nat -> real) returns (genes: seq<Gene>)
    ensures genes == FromFirst(m1, m2, keep1, pick)
  {
    genes := [];
    var i := 0;
    while i < |m1|
      invariant i <= |m1| && FromFirst(m1, m2, keep1, pick) == genes + FromFirst(m1[i..], m2, keep1, pick)
    {
      var head := FirstHead(m1[i], m2, keep1, pick);
      FirstStep(m1, m2, keep1, pick, i);
      Regroup(genes, head, FromFirst(m1[i + 1..], m2, keep1, pick));
      genes := genes + head;
      i := i + 1;
    }
    assert m1[i..] == [];
    assert genes + [] == genes;
  }

  lemma FirstStep(m1: seq<Gene>, m2: seq<Gene>, keep1: bool, pick: nat -> real, i: nat)
    requires i < |m1|
    ensures FromFirst(m1[i..], m2, keep1, pick) == FirstHead(m1[i], m2, keep1, pick) + FromFirst(m1[i + 1..], m2, keep1, pick)
  {
    assert m1[i..][1..] == m1[i + 1..];
  }

  lemma Regroup(a: seq<Gene>, b: seq<Gene>, c: seq<Gene>)
    ensures a + (b + c) == (a + b) + c
  {
  }

  /** The loop over the second parent's remaining keys. */
  method SecondValues(m2: seq<Gene>, m1: seq<Gene>, keep2: bool) returns (genes: seq<Gene>)
    ensures genes == FromSecond(m2, m1, keep2)
  {
    genes := [];
    var j := 0;
    while j < |m2|
      invariant j <= |m2| && FromSecond(m2, m1, keep2) == genes + FromSecond(m2[j..], m1, keep2)
    {
      assert m2[j..][1..] == m2[j + 1..];
      var head := if keep2 && !Has(m1, m2[j].key) then [m2[j]] else [];
      assert FromSecond(m2[j..], m1, keep2) == head + FromSecond(m2[j + 1..], m1, keep2);
      Regroup(genes, head, FromSecond(m2[j + 1..], m1, keep2));
      genes := genes + head;
      j := j + 1;
    }
    assert m2[j..] == [];
    assert genes + [] == genes;
  }

  /** One gene of the connection loop. */
  method CrossEntry(net: Network, e: ConnJSON) returns (thrown: bool)
    requires net.Ready()
    modifies net, net.graph
    ensures thrown <==> CrossConn(old(net.graph.State()), old(net.Fields()), e).Throws?
    ensures !thrown ==> net.Ready()
                        && (net.graph.State(), net.Fields()) == CrossConn(old(net.graph.State()), old(net.Fields()), e).value
  {
    if Resolve(net.nodes, e.from).None? || Resolve(net.nodes, e.to).None? {
      return false;
    }
    thrown := LoadEntry(net, Gatable(e, net.nodes));
  }

  /** The connection loop of `crossOver`. */
  method CrossEntries(net: Network, gs: seq<Gene>) returns (thrown: bool)
    requires net.Ready()
    modifies net, net.graph
    ensures thrown <==> CrossConns(old(net.graph.State()), old(net.Fields()), gs).Throws?
    ensures !thrown ==> net.Ready()
                        && (net.graph.State(), net.Fields()) == CrossConns(old(net.graph.State()), old(net.Fields()), gs).value
  {
    var i := 0;
    while i < |gs|
      invariant i <= |gs| && net.Ready()
      invariant CrossConns(old(net.graph.State()), old(net.Fields()), gs) == CrossConns(net.graph.State(), net.Fields(), gs[i..])
    {
      assert gs[i..][1..] == gs[i + 1..];
      thrown := CrossEntry(net, gs[i].data);
      if thrown {
        return;
      }
      i := i + 1;
    }
    thrown := false;
  }

  /** `Network.crossOver(network1, network2, equal)` for two networks of
      the arena: `d` and `w` are the draws of `new Network`, whose arena
      and fields are `made` and `fo`; `r`, `coins` and `pick` are the draws
      of the operation itself. */
  method CrossOver(net1: Network, net2: Network, equal: bool, r: real, coins: nat -> real, pick: nat -> real,
                   d: nat -> real, w: nat -> real)
    returns (res: Outcome<Network>, ghost made: Store, ghost fo: NetworkFields)
    requires net1.Ready() && net2.Ready() && net1.graph == net2.graph && Uniform(d) && 0.0 <= r < 1.0
    modifies net1.graph
    ensures net1.input != net2.input || net1.output != net2.output ==> res.Throws? && unchanged(net1.graph)
    ensures net1.input == net2.input && net1.output == net2.output ==>
              && FieldsOk(made, fo) && FieldsOk(made, net1.Fields()) && FieldsOk(made, net2.Fields())
              && fo.input == net1.input && fo.output == net2.output && fo.gates == [] && fo.selfconns == []
              && fo.dropout == 0.0 && fo.score == None
              && (res.Throws? <==> Bred(made, fo, net1.Fields(), net2.Fields(), equal, r, coins, pick).Throws?)
    ensures res.Done? ==> && fresh(res.value) && res.value.graph == net1.graph && res.value.Ready()
                          && (net1.graph.State(), res.value.Fields())
                               == Bred(made, fo, net1.Fields(), net2.Fields(), equal, r, coins, pick).value
  {
    made, fo := net1.graph.State(), net1.Fields();
    if net1.input != net2.input || net1.output != net2.output {
      return Throws, made, fo;
    }
    var g := net1.graph;
    var f1, f2 := net1.Fields(), net2.Fields();
    var nodes0, conns0 := |g.nodes|, |g.conns|;
    var offspring := new Network(g, net1.input, net2.output, d, w);
    made, fo := g.State(), offspring.Fields();
    Outgrown(f1, nodes0, conns0, made);
    Outgrown(f2, nodes0, conns0, made);
    var thrown := Breed(offspring, f1, f2, equal, r, coins, pick);
    if thrown {
      return Throws, made, fo;
    }
    res := Done(offspring);
  }

  /** `crossOver` after `new Network`: the offspring's lists are emptied,
      both parents numbered, the nodes copied and the genes wired. */
  method Breed(offspring: Network, f1: NetworkFields, f2: NetworkFields, equal: bool, r: real,
               coins: nat -> real, pick: nat -> real) returns (thrown: bool)
    requires offspring.Ready() && FieldsOk(offspring.graph.State(), f1) && FieldsOk(offspring.graph.State(), f2)
    requires 0.0 <= r < 1.0
    modifies offspring, offspring.graph
    ensures thrown <==> Bred(old(offspring.graph.State()), old(offspring.Fields()), f1, f2, equal, r, coins, pick).Throws?
    ensures !thrown ==> offspring.Ready() && (offspring.graph.State(), offspring.Fields())
                          == Bred(old(offspring.graph.State()), old(offspring.Fields()), f1, f2, equal, r, coins, pick).value
  {
    var g := offspring.graph;
    ghost var s, fo := g.State(), offspring.Fields();
    offspring.connections := [];
    offspring.nodes := [];
    var size := SizeOf(f1, f2, equal, r);
    NumberBoth(g, f1, f2);
    ghost var t := g.State();
    var ps;
    ps, thrown := ChooseValues(f1.nodes, f2.nodes, size, f1.output, coins);
    if thrown {
      return;
    }
    ChosenFromParents(f1.nodes, f2.nodes, size, f1.output, coins, size, |g.nodes|);
    Populate(offspring, ps);
    ghost var u := g.State();
    Outgrown(f1, |s.nodes|, |s.conns|, u);
    Outgrown(f2, |s.nodes|, |s.conns|, u);
    assert Bred(s, fo, f1, f2, equal, r, coins, pick) == WireGenes(u, fo, f1, f2, |s.nodes|, size, equal, pick);
    thrown := Rewire(offspring, fo, f1, f2, |s.nodes|, size, equal, pick);
  }

  /** The two numbering loops: `network1.nodes`, then `network2.nodes`. */
  method NumberBoth(g: Graph, f1: NetworkFields, f2: NetworkFields)
    requires g.Valid() && IdsBelow(f1.nodes, |g.nodes|) && IdsBelow(f2.nodes, |g.nodes|)
    modifies g
    ensures g.State() == Numbered2(old(g.State()), f1, f2)
  {
    var t := NumberValues(g.State(), f1.nodes);
    t := NumberValues(t, f2.nodes);
    g.nodes := t.nodes;
  }

  /** The copies of the parent nodes `ps` become the offspring's nodes. */
  method Populate(offspring: Network, ps: seq<nat>)
    requires offspring.Ready() && offspring.nodes == [] && IdsBelow(ps, |offspring.graph.nodes|)
    modifies offspring, offspring.graph
    ensures offspring.Ready()
    ensures offspring.graph.State() == PushCopies(old(offspring.graph.State()), old(offspring.graph.State()), ps)
    ensures offspring.Fields() == old(offspring.Fields()).(nodes := Range(old(|offspring.graph.nodes|), |ps|))
  {
    var g := offspring.graph;
    var s := g.State();
    var u, ids := CopyValues(s, ps);
    g.nodes, g.conns := u.nodes, u.conns;
    offspring.nodes := ids;
    Outgrown(offspring.Fields(), |u.nodes|, |s.conns|, u);
  }

  /** The gene tables of both parents, the two key loops and the
      connection loop. */
  method Rewire(offspring: Network, ghost fo: NetworkFields, f1: NetworkFields, f2: NetworkFields, ghost base: nat, ghost size: nat,
                equal: bool, pick: nat -> real)
    returns (thrown: bool)
    requires offspring.Ready() && FieldsOk(offspring.graph.State(), f1) && FieldsOk(offspring.graph.State(), f2)
    requires FieldsOk(offspring.graph.State(), fo) && base + size <= |offspring.graph.nodes|
    requires offspring.Fields() == fo.(nodes := Range(base, size), connections := [])
    modifies offspring, offspring.graph
    ensures var res := WireGenes(old(offspring.graph.State()), fo, f1, f2, base, size, equal, pick);
            && (thrown <==> res.Throws?)
            && (!thrown ==> offspring.Ready() && (offspring.graph.State(), offspring.Fields()) == res.value)
  {
    var u := offspring.graph.State();
    var m1 := TableValues(u, [], f1.connections);
    m1 := TableValues(u, m1, f1.selfconns);
    var m2 := TableValues(u, [], f2.connections);
    m2 := TableValues(u, m2, f2.selfconns);
    var score1, score2 := ScoreOf(f1.score), ScoreOf(f2.score);
    var genes := FirstValues(m1, m2, score1 >= score2 || equal, pick);
    var rest := SecondValues(m2, m1, score2 >= score1 || equal);
    thrown := CrossEntries(offspring, genes + rest);
  }

  /** The fields of a network stay in range as the arena grows. */
  lemma Outgrown(f: NetworkFields, nodes: nat, conns: nat, s: Store)
    requires StoreOk(s) && nodes <= |s.nodes| && conns <= |s.conns|
    requires IdsBelow(f.nodes, nodes) && IdsBelow(f.connections, conns) && IdsBelow(f.gates, conns) && IdsBelow(f.selfconns, conns)
    ensures FieldsOk(s, f)
  {
    BelowGrow(f.nodes, nodes, |s.nodes|);
    BelowGrow(f.connections, conns, |s.conns|);
    BelowGrow(f.gates, conns, |s.conns|);
    BelowGrow(f.selfconns, conns, |s.conns|);
  }
}

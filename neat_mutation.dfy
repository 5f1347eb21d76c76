// The candidate lists and index draws of the structural mutation operators
// of Javascript/NeatJS/src/architecture/network.js (the `*Mutation` helper
// methods), as values over the arena of NeatNode. The operators themselves
// are methods of `NeatNetwork.Network`.

module NeatMutation {
  import opened NeatConnection
  import opened NeatNode

  /** A stream of `Math.random()` draws: call number `k` returns `d(k)`. */
  ghost predicate Uniform(d: nat -> real)
  {
    forall k :: 0.0 <= d(k) < 1.0
  }

  lemma ScaleBelow(r: real, n: nat)
    requires 0.0 <= r < 1.0
    ensures 0.0 <= r * (n as real)
    ensures n > 0 ==> r * (n as real) < n as real
  {
    var m := n as real;
    assert m - r * m == (1.0 - r) * m;
    if n > 0 {
      assert (1.0 - r) * m > 0.0;
    }
  }

  /** `Math.floor(r * n)`: an index below `n` when `n > 0`. */
  function Pick(r: real, n: nat): (i: nat)
    requires 0.0 <= r < 1.0
    ensures n > 0 ==> i < n
    ensures n == 0 ==> i == 0
  {
    ScaleBelow(r, n);
    (r * (n as real)).Floor
  }

  /** `Math.floor(r * span + low)`: the position an operator draws from
      `[low, low + span)`. For a negative `span` it may fall below `low`. */
  function Drawn(r: real, span: int, low: nat): (i: int)
    requires 0.0 <= r < 1.0
    ensures 0 <= span ==> low <= i
    ensures 0 < span ==> i < low + span
    ensures span == 0 ==> i == low
    ensures span < 0 ==> low + span <= i <= low
  {
    DrawnBounds(r, span, low);
    (r * (span as real) + (low as real)).Floor
  }

  lemma DrawnBounds(r: real, span: int, low: nat)
    requires 0.0 <= r < 1.0
    ensures var i := (r * (span as real) + (low as real)).Floor;
            && (0 <= span ==> low <= i)
            && (0 < span ==> i < low + span)
            && (span == 0 ==> i == low)
            && (span < 0 ==> low + span <= i <= low)
  {
    var m := span as real;
    var x := r * m + (low as real);
    if 0 <= span {
      NonNegativeScale(r, m);
      FloorAtLeast(x, low);
      if 0 < span {
        ShiftBelow(r * m, span, low);
        FloorBelow(x, low + span);
      }
    } else {
      NegativeScale(r, m);
      FloorAtLeast(x, low + span);
      FloorAtMost(x, low);
    }
  }

  lemma ShiftBelow(y: real, span: int, low: int)
    requires y < span as real
    ensures y + (low as real) < ((low + span) as real)
  {
  }

  lemma FloorAtLeast(x: real, k: int)
    requires (k as real) <= x
    ensures k <= x.Floor
  {
  }

  lemma FloorBelow(x: real, k: int)
    requires x < (k as real)
    ensures x.Floor < k
  {
  }

  lemma FloorAtMost(x: real, k: int)
    requires x <= (k as real)
    ensures x.Floor <= k
  {
  }

  /** Scaling a non-negative `m` by a draw in `[0, 1)` lands in `[0, m)`,
      or on 0 when `m` is 0. */
  lemma NonNegativeScale(r: real, m: real)
    requires 0.0 <= r < 1.0 && 0.0 <= m
    ensures 0.0 <= r * m && (0.0 < m ==> r * m < m) && (m == 0.0 ==> r * m == 0.0)
  {
    assert m - r * m == (1.0 - r) * m;
    if 0.0 < m {
      assert (1.0 - r) * m > 0.0;
    }
  }

  /** Scaling a negative `m` by a draw in `[0, 1)` lands in `(m, 0]`. */
  lemma NegativeScale(r: real, m: real)
    requires 0.0 <= r < 1.0 && m < 0.0
    ensures m < r * m <= 0.0
  {
    assert m - r * m == (1.0 - r) * m;
    SignOfProduct(1.0 - r, m);
    SignOfProduct(r, m);
  }

  lemma SignOfProduct(a: real, b: real)
    requires 0.0 <= a && b < 0.0
    ensures a * b <= 0.0 && (0.0 < a ==> a * b < 0.0)
  {
  }

  function Max(a: int, b: int): int
  {
    if a < b then b else a
  }

  function Min(a: int, b: int): int
  {
    if a < b then a else b
  }

  /** The position `array.splice(start, 0, x)` inserts at: a negative
      `start` counts from the end, and either end clamps. */
  function SpliceStart(start: int, len: nat): (k: nat)
    ensures k <= len
    ensures 0 <= start <= len ==> k == start
    ensures len < start ==> k == len
    ensures start < 0 && 0 <= len + start ==> k == len + start
    ensures len + start < 0 ==> k == 0
  {
    if start < 0 then (if len + start < 0 then 0 else len + start)
    else if len < start then len
    else start
  }

  /** `array.splice(k, 0, x)` for a clamped position `k`. */
  function InsertAt<T>(s: seq<T>, k: nat, x: T): (r: seq<T>)
    requires k <= |s|
    ensures |r| == |s| + 1 && r[k] == x
    ensures forall i :: 0 <= i < k ==> r[i] == s[i]
    ensures forall i :: k < i < |r| ==> r[i] == s[i - 1]
  {
    s[..k] + [x] + s[k..]
  }

  /** Inserting at or before the last `m` entries keeps them last. */
  lemma InsertKeepsTail<T>(s: seq<T>, k: nat, x: T, m: nat)
    requires k + m <= |s|
    ensures InsertAt(s, k, x)[|s| + 1 - m..] == s[|s| - m..]
  {
    var t := InsertAt(s, k, x)[|s| + 1 - m..];
    var u := s[|s| - m..];
    forall i | 0 <= i < |t|
      ensures t[i] == u[i]
    {
    }
  }

  /** Where `addNodeMutation` puts the new node: before the target at
      position `toIndex`, but never among the last `output` entries. */
  function NewNodeAt(len: nat, toIndex: int, output: nat): (k: nat)
    ensures k <= len
  {
    SpliceStart(Min(toIndex, len - output), len)
  }

  /** The new node of `addNodeMutation` leaves the last `output` entries
      last, when the target is in `nodes`: the outputs stay the outputs. */
  lemma NewNodeKeepsOutputs(nodes: seq<nat>, toIndex: int, node: nat, output: nat)
    requires 0 <= toIndex < |nodes| && output <= |nodes|
    ensures var r := InsertAt(nodes, NewNodeAt(|nodes|, toIndex, output), node);
            |r| == |nodes| + 1 && r[|r| - output..] == nodes[|nodes| - output..]
  {
    InsertKeepsTail(nodes, NewNodeAt(|nodes|, toIndex, output), node, output);
  }

  /** When the target is missing from `nodes` (`indexOf` gives -1), the new
      node lands just before the last entry instead. */
  lemma NewNodeMissingTarget(nodes: seq<nat>, node: nat, output: nat)
    requires |nodes| > 0 && output <= |nodes|
    ensures var r := InsertAt(nodes, NewNodeAt(|nodes|, -1, output), node);
            r[|nodes| - 1] == node && r[|nodes|] == nodes[|nodes| - 1]
  {
  }

  // ---------------------------------------------------------------------
  // The pairs the connection-adding operators offer

  /** Position `(a, b)` of a double loop comes at or after `(i, j)`. */
  predicate AtOrAfter(a: nat, b: nat, i: nat, j: nat)
  {
    i < a || (a == i && j <= b)
  }

  /** `addConnMutation`'s loops: `a` below `|nodes| - output`, `b` from
      `max(a + 1, input)` to the end. */
  predicate Forward(nodes: seq<nat>, input: nat, output: nat, a: nat, b: nat)
  {
    a < |nodes| - output && Max(a + 1, input) <= b < |nodes|
  }

  /** The pairs `addConnMutation` offers from position `(i, j)` of its loops
      on, in loop order: those whose source does not project to the
      target. */
  function ForwardFrom(s: Store, nodes: seq<nat>, input: nat, output: nat, i: nat, j: nat): seq<(nat, nat)>
    requires StoreOk(s) && IdsBelow(nodes, |s.nodes|)
    decreases |nodes| - i, |nodes| - j
  {
    if |nodes| - output <= i then []
    else if |nodes| <= j then ForwardFrom(s, nodes, input, output, i + 1, Max(i + 2, input))
    else
      (if ProjectsTo(s, nodes[i], nodes[j]) then [] else [(nodes[i], nodes[j])])
      + ForwardFrom(s, nodes, input, output, i, j + 1)
  }

  /** One step of `addConnMutation`'s inner loop. */
  lemma ForwardStep(s: Store, nodes: seq<nat>, input: nat, output: nat, i: nat, j: nat, projecting: bool)
    requires StoreOk(s) && IdsBelow(nodes, |s.nodes|) && i < |nodes| - output && j < |nodes|
    requires projecting == ProjectsTo(s, nodes[i], nodes[j])
    ensures ForwardFrom(s, nodes, input, output, i, j)
            == (if projecting then [] else [(nodes[i], nodes[j])]) + ForwardFrom(s, nodes, input, output, i, j + 1)
  {
  }

  /** The end of a row of `addConnMutation`'s loops. */
  lemma ForwardRowEnd(s: Store, nodes: seq<nat>, input: nat, output: nat, i: nat, j: nat)
    requires StoreOk(s) && IdsBelow(nodes, |s.nodes|) && i < |nodes| - output && |nodes| <= j
    ensures ForwardFrom(s, nodes, input, output, i, j) == ForwardFrom(s, nodes, input, output, i + 1, Max(i + 2, input))
  {
  }

  /** Every pair offered is a forward pair whose source does not project
      to its target. */
  lemma {:induction false} ForwardSound(s: Store, nodes: seq<nat>, input: nat, output: nat, i: nat, j: nat, p: (nat, nat))
    requires StoreOk(s) && IdsBelow(nodes, |s.nodes|) && Max(i + 1, input) <= j
    requires p in ForwardFrom(s, nodes, input, output, i, j)
    ensures exists a: nat, b: nat :: Forward(nodes, input, output, a, b) && AtOrAfter(a, b, i, j)
                          && p == (nodes[a], nodes[b]) && !ProjectsTo(s, nodes[a], nodes[b])
    decreases |nodes| - i, |nodes| - j
  {
    if |nodes| - output <= i {
    } else if |nodes| <= j {
      ForwardSound(s, nodes, input, output, i + 1, Max(i + 2, input), p);
    } else if p in ForwardFrom(s, nodes, input, output, i, j + 1) {
      ForwardSound(s, nodes, input, output, i, j + 1, p);
    } else {
      assert Forward(nodes, input, output, i, j) && AtOrAfter(i, j, i, j);
    }
  }

  /** Every forward pair whose source does not project to its target is
      offered. */
  lemma {:induction false} ForwardComplete(s: Store, nodes: seq<nat>, input: nat, output: nat, i: nat, j: nat, a: nat, b: nat)
    requires StoreOk(s) && IdsBelow(nodes, |s.nodes|)
    requires Forward(nodes, input, output, a, b) && AtOrAfter(a, b, i, j)
    requires !ProjectsTo(s, nodes[a], nodes[b])
    ensures (nodes[a], nodes[b]) in ForwardFrom(s, nodes, input, output, i, j)
    decreases |nodes| - i, |nodes| - j
  {
    if |nodes| <= j {
      ForwardComplete(s, nodes, input, output, i + 1, Max(i + 2, input), a, b);
    } else if a == i && b == j {
    } else {
      ForwardComplete(s, nodes, input, output, i, j + 1, a, b);
    }
  }

  /** `addBackConnMutation`'s loops: `a` from `input` to the end, `b` from
      `input` up to `a`. */
  predicate Backward(nodes: seq<nat>, input: nat, a: nat, b: nat)
  {
    input <= b < a < |nodes|
  }

  /** The pairs `addBackConnMutation` offers from position `(i, j)` of its
      loops on, in loop order. */
  function BackwardFrom(s: Store, nodes: seq<nat>, input: nat, i: nat, j: nat): seq<(nat, nat)>
    requires StoreOk(s) && IdsBelow(nodes, |s.nodes|)
    decreases |nodes| - i, i - j
  {
    if |nodes| <= i then []
    else if i <= j then BackwardFrom(s, nodes, input, i + 1, input)
    else
      (if ProjectsTo(s, nodes[i], nodes[j]) then [] else [(nodes[i], nodes[j])])
      + BackwardFrom(s, nodes, input, i, j + 1)
  }

  /** Moving the next piece of a sequence to the part already built. */
  lemma Advance<T>(done: seq<T>, step: seq<T>, rest: seq<T>, whole: seq<T>)
    requires done + (step + rest) == whole
    ensures (done + step) + rest == whole
  {
  }

  /** One step of `addBackConnMutation`'s inner loop. */
  lemma BackwardStep(s: Store, nodes: seq<nat>, input: nat, i: nat, j: nat, projecting: bool)
    requires StoreOk(s) && IdsBelow(nodes, |s.nodes|) && j < i < |nodes|
    requires projecting == ProjectsTo(s, nodes[i], nodes[j])
    ensures BackwardFrom(s, nodes, input, i, j)
            == (if projecting then [] else [(nodes[i], nodes[j])]) + BackwardFrom(s, nodes, input, i, j + 1)
  {
  }

  /** The end of a row of `addBackConnMutation`'s loops. */
  lemma BackwardRowEnd(s: Store, nodes: seq<nat>, input: nat, i: nat, j: nat)
    requires StoreOk(s) && IdsBelow(nodes, |s.nodes|) && i < |nodes| && i <= j
    ensures BackwardFrom(s, nodes, input, i, j) == BackwardFrom(s, nodes, input, i + 1, input)
  {
  }

  lemma {:induction false} BackwardSound(s: Store, nodes: seq<nat>, input: nat, i: nat, j: nat, p: (nat, nat))
    requires StoreOk(s) && IdsBelow(nodes, |s.nodes|) && input <= j
    requires p in BackwardFrom(s, nodes, input, i, j)
    ensures exists a: nat, b: nat :: Backward(nodes, input, a, b) && AtOrAfter(a, b, i, j)
                          && p == (nodes[a], nodes[b]) && !ProjectsTo(s, nodes[a], nodes[b])
    decreases |nodes| - i, i - j
  {
    if |nodes| <= i {
    } else if i <= j {
      BackwardSound(s, nodes, input, i + 1, input, p);
    } else if p in BackwardFrom(s, nodes, input, i, j + 1) {
      BackwardSound(s, nodes, input, i, j + 1, p);
    } else {
      assert Backward(nodes, input, i, j) && AtOrAfter(i, j, i, j);
    }
  }

  lemma {:induction false} BackwardComplete(s: Store, nodes: seq<nat>, input: nat, i: nat, j: nat, a: nat, b: nat)
    requires StoreOk(s) && IdsBelow(nodes, |s.nodes|)
    requires Backward(nodes, input, a, b) && AtOrAfter(a, b, i, j) && input <= j
    requires !ProjectsTo(s, nodes[a], nodes[b])
    ensures (nodes[a], nodes[b]) in BackwardFrom(s, nodes, input, i, j)
    decreases |nodes| - i, i - j
  {
    if i <= j {
      BackwardComplete(s, nodes, input, i + 1, input, a, b);
    } else if a == i && b == j {
    } else {
      BackwardComplete(s, nodes, input, i, j + 1, a, b);
    }
  }

  // ---------------------------------------------------------------------
  // The filters of the other operators

  /** A connection `subConnMutation` (`forward`) or `subBackConnMutation`
      may drop: its source has another outgoing and its target another
      incoming connection, and the target comes after (before) the source
      in `nodes`. */
  predicate Droppable(s: Store, nodes: seq<nat>, c: nat, forward: bool)
    requires StoreOk(s) && c < |s.conns|
  {
    var from := s.conns[c].from;
    var to := s.conns[c].to;
    && |s.nodes[from].outs| > 1 && |s.nodes[to].ins| > 1
    && (if forward then IndexOf(nodes, to) > IndexOf(nodes, from) else IndexOf(nodes, from) > IndexOf(nodes, to))
  }

  lemma TailMembers<T>(list: seq<T>)
    requires list != []
    ensures forall k :: 1 <= k < |list| ==> list[k] in list[1..]
    ensures forall c :: c in list[1..] ==> c in list
  {
    assert forall k :: 1 <= k < |list| ==> list[k] == list[1..][k - 1];
  }

  /** `list.filter(...)` with `Droppable`. */
  function DroppableIn(s: Store, nodes: seq<nat>, list: seq<nat>, forward: bool): (r: seq<nat>)
    requires StoreOk(s) && IdsBelow(list, |s.conns|)
    ensures IdsBelow(r, |s.conns|) && |r| <= |list|
  {
    if list == [] then []
    else
      var rest := DroppableIn(s, nodes, list[1..], forward);
      if Droppable(s, nodes, list[0], forward) then [list[0]] + rest else rest
  }

  /** One step of a filter: the head is kept in front of the rest, or
      dropped. */
  lemma FilterStep<T>(r: seq<T>, rest: seq<T>, x: T, keep: bool)
    requires r == if keep then [x] + rest else rest
    ensures forall c :: c in r ==> (c == x && keep) || c in rest
    ensures keep ==> x in r
    ensures forall c :: c in rest ==> c in r
  {
    if keep {
      assert forall k :: 1 <= k < |r| ==> r[k] == rest[k - 1];
    }
  }

  /** The filter keeps exactly the droppable connections of `list`. */
  lemma {:induction false} DroppableInExact(s: Store, nodes: seq<nat>, list: seq<nat>, forward: bool)
    requires StoreOk(s) && IdsBelow(list, |s.conns|)
    ensures var r := DroppableIn(s, nodes, list, forward);
            && (forall c :: c in r ==> c < |s.conns| && c in list && Droppable(s, nodes, c, forward))
            && (forall k :: 0 <= k < |list| && Droppable(s, nodes, list[k], forward) ==> list[k] in r)
  {
    if list != [] {
      var rest := DroppableIn(s, nodes, list[1..], forward);
      DroppableInExact(s, nodes, list[1..], forward);
      TailMembers(list);
      FilterStep(DroppableIn(s, nodes, list, forward), rest, list[0], Droppable(s, nodes, list[0], forward));
    }
  }

  /** The nodes of `list` whose self-connection has weight 0, the
      candidates of `addSelfConnMutation`. */
  function SelfFree(s: Store, list: seq<nat>): (r: seq<nat>)
    requires StoreOk(s) && IdsBelow(list, |s.nodes|)
    ensures IdsBelow(r, |s.nodes|) && |r| <= |list|
    ensures forall k :: 0 <= k < |r| ==> r[k] in list && s.conns[s.nodes[r[k]].self].weight == 0.0
    ensures forall k :: 0 <= k < |list| && s.conns[s.nodes[list[k]].self].weight == 0.0 ==> list[k] in r
  {
    if list == [] then []
    else
      var rest := SelfFree(s, list[1..]);
      assert forall k :: 1 <= k < |list| ==> list[k] == list[1..][k - 1];
      if s.conns[s.nodes[list[0]].self].weight == 0.0 then [list[0]] + rest else rest
  }

  /** The connections of `list` with no gater, the candidates of
      `addGateMutation`. */
  function Ungated(s: Store, list: seq<nat>): (r: seq<nat>)
    requires StoreOk(s) && IdsBelow(list, |s.conns|)
    ensures IdsBelow(r, |s.conns|) && |r| <= |list|
    ensures forall k :: 0 <= k < |r| ==> r[k] in list && s.conns[r[k]].gater.None?
    ensures forall k :: 0 <= k < |list| && s.conns[list[k]].gater.None? ==> list[k] in r
  {
    if list == [] then []
    else
      var rest := Ungated(s, list[1..]);
      assert forall k :: 1 <= k < |list| ==> list[k] == list[1..][k - 1];
      if s.conns[list[0]].gater.None? then [list[0]] + rest else rest
  }
}

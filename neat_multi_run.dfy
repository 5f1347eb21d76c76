// Model of the record walk of `activateSerializedNetwork` in
// Javascript/NeatJS/src/multithreading/multi.js: a worker receives a network
// as one flat number array and runs it over two arrays, `A` (activations)
// and `S` (states). The squash functions are a parameter; numbers are reals.

module NeatMultiRun {
  import opened NeatConnection
  import opened NeatMulti

  // ---------------------------------------------------------------------
  // Records of a serialized network

  /** An incoming connection: the source's index, the weight and the
      gater's index (`-1` in the data for none). */
  datatype Triple = Triple(from: nat, weight: real, gater: Option<nat>)

  /** One node: its index, bias, squash number, self-connection weight and
      self-connection gater, then its incoming connections. */
  datatype Record = Record(index: nat, bias: real, squash: nat, selfweight: real,
                           selfgater: Option<nat>, conns: seq<Triple>)

  /** The end-of-record mark. */
  const Sentinel: real := -2.0

  /** A gater field: `-1` or an index. */
  predicate IsGater(x: real)
  {
    x == -1.0 || IsNat(x)
  }

  function GaterOf(x: real): (g: Option<nat>)
    requires IsGater(x)
    ensures g.None? <==> x == -1.0
    ensures g.Some? ==> g.value as real == x
  {
    if x == -1.0 then None else Some(ToNat(x))
  }

  /** The connections from position `k` on, and the position of the
      sentinel that ends them; `None` when the walk would not end there
      (no sentinel, a triple cut off by the end of the data) or would read a
      field that is not an index. */
  function Triples(data: seq<real>, k: nat): (r: Option<(seq<Triple>, nat)>)
    ensures r.Some? ==> k <= r.value.1 < |data| && data[r.value.1] == Sentinel
    ensures r.Some? ==> r.value.1 == k + 3 * |r.value.0|
    decreases |data| - k
  {
    if |data| <= k then None
    else if data[k] == Sentinel then Some(([], k))
    else if |data| < k + 3 || !IsNat(data[k]) || !IsGater(data[k + 2]) then None
    else
      match Triples(data, k + 3)
      case None => None
      case Some((ts, end)) => Some(([Triple(ToNat(data[k]), data[k + 1], GaterOf(data[k + 2]))] + ts, end))
  }

  /** The node records from position `i` to the end of the data. */
  function Parse(data: seq<real>, i: nat): (r: Option<seq<Record>>)
    decreases |data| - i
  {
    if |data| <= i then Some([])
    else if |data| < i + 5 || !IsNat(data[i]) || !IsNat(data[i + 2]) || !IsGater(data[i + 4]) then None
    else
      match Triples(data, i + 5)
      case None => None
      case Some((ts, end)) =>
        match Parse(data, end + 1)
        case None => None
        case Some(rest) =>
          Some([Record(ToNat(data[i]), data[i + 1], ToNat(data[i + 2]), data[i + 3], GaterOf(data[i + 4]), ts)] + rest)
  }

  // ---------------------------------------------------------------------
  // The layout: records written out as numbers

  function GaterCode(g: Option<nat>): (x: real)
    ensures IsGater(x) && GaterOf(x) == g
  {
    if g.None? then -1.0 else g.value as real
  }

  function TriplesCode(ts: seq<Triple>): (r: seq<real>)
    ensures |r| == 3 * |ts|
  {
    if ts == [] then []
    else [ts[0].from as real, ts[0].weight, GaterCode(ts[0].gater)] + TriplesCode(ts[1..])
  }

  /** Index, bias, squash, self weight, self gater, the connections as
      (from, weight, gater) triples, then the sentinel. */
  function RecordCode(r: Record): (c: seq<real>)
    ensures |c| == 6 + 3 * |r.conns|
  {
    [r.index as real, r.bias, r.squash as real, r.selfweight, GaterCode(r.selfgater)]
    + TriplesCode(r.conns) + [Sentinel]
  }

  function Code(rs: seq<Record>): seq<real>
  {
    if rs == [] then [] else RecordCode(rs[0]) + Code(rs[1..])
  }

  lemma Assoc<T>(a: seq<T>, b: seq<T>, c: seq<T>)
    ensures a + (b + c) == a + b + c
  {
  }

  lemma Regroup<T>(a: seq<T>, b: seq<T>, c: seq<T>, e: seq<T>)
    ensures a + b + c + e == a + (b + c + e)
    ensures a + b + c + e == (a + b) + c + e
  {
  }

  /** The walk reads back every written connection and stops at the
      sentinel. */
  lemma {:induction false} TriplesOfCode(pre: seq<real>, ts: seq<Triple>, post: seq<real>)
    ensures Triples(pre + TriplesCode(ts) + [Sentinel] + post, |pre|) == Some((ts, |pre| + 3 * |ts|))
    decreases |ts|
  {
    var data := pre + TriplesCode(ts) + [Sentinel] + post;
    if ts == [] {
      assert data[|pre|] == Sentinel;
    } else {
      var t := ts[0];
      var head := [t.from as real, t.weight, GaterCode(t.gater)];
      assert TriplesCode(ts) == head + TriplesCode(ts[1..]);
      Regroup(pre, head, TriplesCode(ts[1..]) + [Sentinel], post);
      Regroup(pre, TriplesCode(ts), [Sentinel], post);
      assert data == (pre + head) + (TriplesCode(ts[1..]) + [Sentinel]) + post;
      assert data == (pre + head) + TriplesCode(ts[1..]) + [Sentinel] + post;
      assert data[|pre|] == t.from as real && data[|pre| + 1] == t.weight && data[|pre| + 2] == GaterCode(t.gater);
      TriplesOfCode(pre + head, ts[1..], post);
      assert ts == [Triple(t.from, t.weight, t.gater)] + ts[1..];
    }
  }

  /** Record `r` is written at position `i` of `data`, and its sentinel is
      at `end`. */
  predicate RecordAt(data: seq<real>, i: nat, r: Record, end: nat)
  {
    && i + 5 <= |data| && IsNat(data[i]) && IsNat(data[i + 2]) && IsGater(data[i + 4])
    && ToNat(data[i]) == r.index && data[i + 1] == r.bias && ToNat(data[i + 2]) == r.squash
    && data[i + 3] == r.selfweight && GaterOf(data[i + 4]) == r.selfgater
    && Triples(data, i + 5) == Some((r.conns, end))
  }

  /** A record at `i` and the records after its sentinel make up the
      records from `i`. */
  lemma ParseJoin(data: seq<real>, i: nat, rs: seq<Record>, end: nat)
    requires rs != [] && RecordAt(data, i, rs[0], end) && Parse(data, end + 1) == Some(rs[1..])
    ensures Parse(data, i) == Some(rs)
  {
    assert [rs[0]] + rs[1..] == rs;
  }

  /** The records from `i`, when there are any, start with one written at
      `i`. */
  lemma ParseSplit(data: seq<real>, i: nat, rs: seq<Record>) returns (end: nat)
    requires Parse(data, i) == Some(rs) && i < |data|
    ensures rs != [] && RecordAt(data, i, rs[0], end) && Parse(data, end + 1) == Some(rs[1..])
  {
    end := Triples(data, i + 5).value.1;
  }

  lemma {:induction false} RecordOfCode(pre: seq<real>, r: Record, post: seq<real>)
    ensures RecordAt(pre + RecordCode(r) + post, |pre|, r, |pre| + 5 + 3 * |r.conns|)
  {
    var head := [r.index as real, r.bias, r.squash as real, r.selfweight, GaterCode(r.selfgater)];
    var data := pre + RecordCode(r) + post;
    Regroup(pre, head, TriplesCode(r.conns) + [Sentinel], post);
    assert data == (pre + head) + TriplesCode(r.conns) + [Sentinel] + post;
    TriplesOfCode(pre + head, r.conns, post);
    assert data[|pre|] == r.index as real && data[|pre| + 1] == r.bias && data[|pre| + 2] == r.squash as real;
    assert data[|pre| + 3] == r.selfweight && data[|pre| + 4] == GaterCode(r.selfgater);
  }

  /** Reading written records gives them back: the layout is index, bias,
      squash, self weight, self gater, triples, sentinel. */
  lemma {:induction false} ParseCode(pre: seq<real>, rs: seq<Record>)
    ensures Parse(pre + Code(rs), |pre|) == Some(rs)
    decreases |rs|
  {
    if rs == [] {
      assert pre + Code(rs) == pre;
    } else {
      var code, more := RecordCode(rs[0]), Code(rs[1..]);
      Assoc(pre, code, more);
      RecordOfCode(pre, rs[0], more);
      ParseCode(pre + code, rs[1..]);
      assert |pre + code| == |pre| + 5 + 3 * |rs[0].conns| + 1;
      ParseJoin(pre + code + more, |pre|, rs, |pre| + 5 + 3 * |rs[0].conns|);
    }
  }

  // ---------------------------------------------------------------------
  // What the walk computes

  datatype State = State(act: seq<real>, state: seq<real>)

  predicate GaterFits(g: Option<nat>, n: nat)
  {
    g.Some? ==> g.value < n
  }

  predicate TriplesFit(ts: seq<Triple>, n: nat)
  {
    forall k :: 0 <= k < |ts| ==> ts[k].from < n && GaterFits(ts[k].gater, n)
  }

  /** Every index a record names is a cell of `A` and of `S`, and every
      squash number names a function of `F`. */
  predicate RecordFits(r: Record, nA: nat, nS: nat, nF: nat)
  {
    r.index < nA && r.index < nS && r.squash < nF && GaterFits(r.selfgater, nA) && TriplesFit(r.conns, nA)
  }

  predicate Fit(rs: seq<Record>, nA: nat, nS: nat, nF: nat)
  {
    forall k :: 0 <= k < |rs| ==> RecordFits(rs[k], nA, nS, nF)
  }

  /** A gate's factor: 1 when there is no gater. */
  function Gain(a: seq<real>, g: Option<nat>): real
    requires GaterFits(g, |a|)
  {
    if g.None? then 1.0 else a[g.value]
  }

  /** The product `x * y * z`, evaluated left to right. */
  function Product(x: real, y: real, z: real): real
  {
    x * y * z
  }

  /** A connection's contribution to its target's state. */
  function Term(t: Triple, a: seq<real>): real
    requires t.from < |a| && GaterFits(t.gater, |a|)
  {
    Product(a[t.from], t.weight, Gain(a, t.gater))
  }

  /** `acc` plus each connection's contribution, in order. */
  function Acc(acc: real, ts: seq<Triple>, a: seq<real>): real
    requires TriplesFit(ts, |a|)
    decreases |ts|
  {
    if ts == [] then acc else Acc(acc + Term(ts[0], a), ts[1..], a)
  }

  /** One record: the node's new state, then its activation. */
  function Step(r: Record, st: State, F: seq<real -> real>): (next: State)
    requires RecordFits(r, |st.act|, |st.state|, |F|)
    ensures |next.act| == |st.act| && |next.state| == |st.state|
  {
    var s := Acc(Product(Gain(st.act, r.selfgater), r.selfweight, st.state[r.index]) + r.bias, r.conns, st.act);
    State(st.act[r.index := F[r.squash](s)], st.state[r.index := s])
  }

  /** The records in order. */
  function Run(rs: seq<Record>, st: State, F: seq<real -> real>): (final: State)
    requires Fit(rs, |st.act|, |st.state|, |F|)
    ensures |final.act| == |st.act| && |final.state| == |st.state|
    decreases |rs|
  {
    if rs == [] then st else Run(rs[1..], Step(rs[0], st, F), F)
  }

  predicate Named(rs: seq<Record>, k: nat)
  {
    exists m :: 0 <= m < |rs| && rs[m].index == k
  }

  /** Cells that no record names keep their values. */
  lemma {:induction false} Untouched(rs: seq<Record>, st: State, F: seq<real -> real>, k: nat)
    requires Fit(rs, |st.act|, |st.state|, |F|) && !Named(rs, k)
    ensures k < |st.act| ==> Run(rs, st, F).act[k] == st.act[k]
    ensures k < |st.state| ==> Run(rs, st, F).state[k] == st.state[k]
    decreases |rs|
  {
    if rs != [] {
      assert rs[0].index != k;
      assert Fit(rs[1..], |st.act|, |st.state|, |F|) by {
        forall m | 0 <= m < |rs[1..]|
          ensures RecordFits(rs[1..][m], |st.act|, |st.state|, |F|)
        {
          assert rs[1..][m] == rs[m + 1];
        }
      }
      Untouched(rs[1..], Step(rs[0], st, F), F, k);
    }
  }

  /** After the walk, the cell of a record that no later record names
      holds that record's squash applied to the node's final state. */
  lemma {:induction false} LastWriteSquashed(rs: seq<Record>, st: State, F: seq<real -> real>, m: nat)
    requires Fit(rs, |st.act|, |st.state|, |F|) && m < |rs| && !Named(rs[m + 1..], rs[m].index)
    ensures rs[m].index < |st.act| && rs[m].index < |st.state|
    ensures Run(rs, st, F).act[rs[m].index] == F[rs[m].squash](Run(rs, st, F).state[rs[m].index])
    decreases |rs|
  {
    assert RecordFits(rs[m], |st.act|, |st.state|, |F|);
    assert RecordFits(rs[0], |st.act|, |st.state|, |F|);
    var next := Step(rs[0], st, F);
    assert Fit(rs[1..], |st.act|, |st.state|, |F|) by {
      forall k | 0 <= k < |rs[1..]|
        ensures RecordFits(rs[1..][k], |st.act|, |st.state|, |F|)
      {
        assert rs[1..][k] == rs[k + 1];
      }
    }
    if m == 0 {
      assert rs[1..] == rs[m + 1..];
      Untouched(rs[1..], next, F, rs[0].index);
    } else {
      assert rs[1..][m - 1] == rs[m] && rs[1..][m - 1 + 1..] == rs[m + 1..];
      LastWriteSquashed(rs[1..], next, F, m - 1);
    }
  }

  /** Inputs that no record overwrites are still in `A` at the end. */
  lemma InputsKept(rs: seq<Record>, input: seq<real>, a: seq<real>, s: seq<real>, n: nat,
                   F: seq<real -> real>, k: nat)
    requires n <= |input| && n <= |a| && k < n
    requires Fit(rs, |a|, |s|, |F|) && !Named(rs, k)
    ensures Run(rs, State(input[..n] + a[n..], s), F).act[k] == input[k]
  {
    Untouched(rs, State(input[..n] + a[n..], s), F, k);
  }

  // ---------------------------------------------------------------------
  // The walk

  /** How many inputs the first loop copies: `data[0]`, none when it is
      missing. */
  function InCount(data: seq<real>): nat
    requires 0 < |data| ==> IsNat(data[0])
  {
    if |data| == 0 then 0 else ToNat(data[0])
  }

  /** What the walk needs: whole sizes no larger than the arrays, records
      that read to the end, and indices inside `A`, `S` and `F`. */
  predicate Runnable(input: seq<real>, nA: nat, nS: nat, data: seq<real>, nF: nat)
  {
    && (0 < |data| ==> IsNat(data[0]) && ToNat(data[0]) <= |input| && ToNat(data[0]) <= nA)
    && (1 < |data| ==> IsNat(data[1]) && ToNat(data[1]) <= nA)
    && Parse(data, 2).Some? && Fit(Parse(data, 2).value, nA, nS, nF)
  }

  /** `activateSerializedNetwork(input, A, S, data, F)`. */
  method ActivateSerializedNetwork(input: seq<real>, A: array<real>, S: array<real>, data: seq<real>,
                                   F: seq<real -> real>) returns (output: seq<real>)
    requires A != S && Runnable(input, A.Length, S.Length, data, |F|)
    modifies A, S
    ensures var n := InCount(data);
            State(A[..], S[..]) == Run(Parse(data, 2).value, State(input[..n] + old(A[..])[n..], old(S[..])), F)
    ensures 1 < |data| ==> output == A[A.Length - ToNat(data[1])..]
    ensures |data| <= 1 ==> output == []
  {
    var n := InCount(data);
    CopyInputs(A, input, n);
    WalkRecords(A, S, data, F);
    output := [];
    if 1 < |data| {
      output := ReadOutputs(A, ToNat(data[1]));
    }
  }

  /** The first loop: `A[i] = input[i]` for `i < n`. */
  method CopyInputs(A: array<real>, input: seq<real>, n: nat)
    requires n <= |input| && n <= A.Length
    modifies A
    ensures A[..] == input[..n] + old(A[..])[n..]
  {
    var i := 0;
    while i < n
      invariant i <= n
      invariant forall j :: 0 <= j < A.Length ==> A[j] == if j < i then input[j] else old(A[j])
    {
      A[i] := input[i];
      i := i + 1;
    }
    assert A[..] == input[..n] + old(A[..])[n..];
  }

  /** The last loop: the last `count` entries of `A`, in order. */
  method ReadOutputs(A: array<real>, count: nat) returns (output: seq<real>)
    requires count <= A.Length
    ensures output == A[A.Length - count..]
  {
    output := [];
    var i := A.Length - count;
    while i < A.Length
      invariant A.Length - count <= i <= A.Length
      invariant output == A[A.Length - count..i]
    {
      output := output + [A[i]];
      i := i + 1;
    }
  }

  /** The outer loop of the walk: one record per round, starting at
      position 2. */
  method WalkRecords(A: array<real>, S: array<real>, data: seq<real>, F: seq<real -> real>)
    requires A != S && Parse(data, 2).Some? && Fit(Parse(data, 2).value, A.Length, S.Length, |F|)
    modifies A, S
    ensures State(A[..], S[..]) == Run(Parse(data, 2).value, State(old(A[..]), old(S[..])), F)
  {
    ghost var final := Run(Parse(data, 2).value, State(A[..], S[..]), F);
    ghost var rest := Parse(data, 2).value;
    var i := 2;
    while i < |data|
      invariant Parse(data, i) == Some(rest) && Fit(rest, A.Length, S.Length, |F|)
      invariant Run(rest, State(A[..], S[..]), F) == final
      decreases |data| - i
    {
      i, rest := WalkOne(A, S, data, F, i, rest);
    }
  }

  /** One round of the outer loop, with what it leaves for the next. */
  method WalkOne(A: array<real>, S: array<real>, data: seq<real>, F: seq<real -> real>, i: nat,
                 ghost rest: seq<Record>) returns (next: nat, ghost left: seq<Record>)
    requires A != S && i < |data| && Parse(data, i) == Some(rest) && Fit(rest, A.Length, S.Length, |F|)
    modifies A, S
    ensures i < next && Parse(data, next) == Some(left) && Fit(left, A.Length, S.Length, |F|)
    ensures Run(left, State(A[..], S[..]), F) == Run(rest, State(old(A[..]), old(S[..])), F)
  {
    ghost var end := ParseSplit(data, i, rest);
    RestOfRun(rest, State(A[..], S[..]), F);
    next := ActivateNode(A, S, data, F, i, rest[0], end);
    left := rest[1..];
  }

  lemma RestOfRun(rs: seq<Record>, st: State, F: seq<real -> real>)
    requires rs != [] && Fit(rs, |st.act|, |st.state|, |F|)
    ensures RecordFits(rs[0], |st.act|, |st.state|, |F|) && Fit(rs[1..], |st.act|, |st.state|, |F|)
    ensures Run(rs, st, F) == Run(rs[1..], Step(rs[0], st, F), F)
  {
    forall m | 0 <= m < |rs[1..]|
      ensures RecordFits(rs[1..][m], |st.act|, |st.state|, |F|)
    {
      assert rs[1..][m] == rs[m + 1];
    }
  }

  /** One round of the outer loop: reads the record at `i`, sets the node's
      state and activation, and returns the position after its sentinel. */
  method ActivateNode(A: array<real>, S: array<real>, data: seq<real>, F: seq<real -> real>, i: nat,
                      ghost r: Record, ghost end: nat) returns (next: nat)
    requires A != S && RecordAt(data, i, r, end) && RecordFits(r, A.Length, S.Length, |F|)
    modifies A, S
    ensures next == end + 1
    ensures State(A[..], S[..]) == Step(r, State(old(A[..]), old(S[..])), F)
  {
    var index := ToNat(data[i]);
    var bias := data[i + 1];
    var squash := ToNat(data[i + 2]);
    var selfweight := data[i + 3];
    var selfgater := GaterOf(data[i + 4]);
    var gain := if selfgater.None? then 1.0 else A[selfgater.value];
    ghost var a0, s0 := A[..], S[..];
    assert gain == Gain(a0, r.selfgater);
    S[index] := Product(gain, selfweight, S[index]) + bias;
    next := AddConnections(A, S, data, i + 5, index, r.conns, end);
    ghost var s := Acc(Product(gain, selfweight, s0[index]) + bias, r.conns, a0);
    assert S[..] == s0[index := s];
    A[index] := F[squash](S[index]);
    assert A[..] == a0[index := F[squash](s)];
    next := next + 1;
  }

  /** The inner loop: adds each connection's contribution to `S[index]`
      until the sentinel, and returns the sentinel's position. */
  method AddConnections(A: array<real>, S: array<real>, data: seq<real>, start: nat, index: nat,
                        ghost ts: seq<Triple>, ghost end: nat) returns (k: nat)
    requires A != S && index < S.Length
    requires Triples(data, start) == Some((ts, end)) && TriplesFit(ts, A.Length)
    modifies S
    ensures k == end
    ensures S[..] == old(S[..])[index := Acc(old(S[index]), ts, old(A[..]))]
  {
    k := start;
    ghost var a, left := A[..], ts;
    while data[k] != Sentinel
      invariant Triples(data, k) == Some((left, end)) && TriplesFit(left, |a|)
      invariant A[..] == a && Acc(S[index], left, a) == Acc(old(S[index]), ts, a)
      invariant S[..] == old(S[..])[index := S[index]]
      decreases |data| - k
    {
      k, left := AddConnection(A, S, data, k, index, left, end);
    }
    TriplesEnd(data, k, left, end);
  }

  /** One round of the inner loop: the triple at `k`. */
  method AddConnection(A: array<real>, S: array<real>, data: seq<real>, k: nat, index: nat,
                       ghost ts: seq<Triple>, ghost end: nat) returns (next: nat, ghost left: seq<Triple>)
    requires A != S && index < S.Length && k < |data| && data[k] != Sentinel
    requires Triples(data, k) == Some((ts, end)) && TriplesFit(ts, A.Length)
    modifies S
    ensures Triples(data, next) == Some((left, end)) && TriplesFit(left, A.Length) && k < next
    ensures Acc(S[index], left, A[..]) == Acc(old(S[index]), ts, A[..])
    ensures S[..] == old(S[..])[index := S[index]]
  {
    TriplesSplit(data, k, ts, end);
    var from := ToNat(data[k]);
    var weight := data[k + 1];
    var gater := GaterOf(data[k + 2]);
    var gain := if gater.None? then 1.0 else A[gater.value];
    ghost var a := A[..];
    AccSplit(S[index], ts, a);
    var term := Product(A[from], weight, gain);
    assert term == Term(ts[0], a);
    S[index] := S[index] + term;
    assert A[..] == a;
    next, left := k + 3, ts[1..];
  }

  lemma TriplesSplit(data: seq<real>, k: nat, ts: seq<Triple>, end: nat)
    requires Triples(data, k) == Some((ts, end)) && data[k] != Sentinel
    ensures k + 3 <= |data| && IsNat(data[k]) && IsGater(data[k + 2])
    ensures ts != [] && ts[0] == Triple(ToNat(data[k]), data[k + 1], GaterOf(data[k + 2]))
    ensures Triples(data, k + 3) == Some((ts[1..], end))
  {
  }

  lemma TriplesEnd(data: seq<real>, k: nat, ts: seq<Triple>, end: nat)
    requires Triples(data, k) == Some((ts, end)) && data[k] == Sentinel
    ensures ts == [] && k == end
  {
  }

  lemma AccSplit(acc: real, ts: seq<Triple>, a: seq<real>)
    requires ts != [] && TriplesFit(ts, |a|)
    ensures TriplesFit(ts[1..], |a|)
    ensures Acc(acc, ts, a) == Acc(acc + Term(ts[0], a), ts[1..], a)
  {
    forall m | 0 <= m < |ts[1..]|
      ensures ts[1..][m].from < |a| && GaterFits(ts[1..][m].gater, |a|)
    {
      assert ts[1..][m] == ts[m + 1];
    }
  }
}

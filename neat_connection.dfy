// Model of Javascript/NeatJS/src/architecture/connection.js: the connection
// record, its JSON form and the Cantor-pairing innovation number. The shared
// helpers for JavaScript values the NeatJS modules use (`undefined`, thrown
// errors, `indexOf` and `splice`) live here too, since every other NeatJS
// module imports this one.

module NeatConnection {

  datatype Option<T> = None | Some(value: T)

  /** The result of a computation that may throw a JavaScript exception. */
  datatype Outcome<T> = Done(value: T) | Throws

  // ---------------------------------------------------------------------
  // Array helpers with JavaScript's semantics

  /** `s.indexOf(x)`: the first position of `x`, or -1. */
  function IndexOf<T(==)>(s: seq<T>, x: T): (i: int)
    ensures -1 <= i < |s|
    ensures i == -1 <==> x !in s
    ensures 0 <= i ==> s[i] == x && x !in s[..i]
  {
    if s == [] then -1
    else if s[0] == x then 0
    else
      var j := IndexOf(s[1..], x);
      if j == -1 then -1
      else
        assert s[..j + 1] == [s[0]] + s[1..][..j];
        j + 1
  }

  /** `s.splice(i, 1)` for `-1 <= i`: position `i` is removed, and -1 means
      the last position; past the end nothing is removed. */
  function SpliceAt<T>(s: seq<T>, i: int): (r: seq<T>)
    requires -1 <= i
    ensures 0 <= i < |s| ==> r == s[..i] + s[i + 1..]
    ensures i == -1 && |s| > 0 ==> r == s[..|s| - 1]
    ensures (i == -1 && s == []) || i >= |s| ==> r == s
  {
    if 0 <= i < |s| then s[..i] + s[i + 1..]
    else if i == -1 && |s| > 0 then s[..|s| - 1]
    else s
  }

  /** Removing the first occurrence of a present element. */
  lemma RemoveFirst<T>(s: seq<T>, x: T)
    requires x in s
    ensures |SpliceAt(s, IndexOf(s, x))| == |s| - 1
    ensures multiset(SpliceAt(s, IndexOf(s, x))) == multiset(s) - multiset{x}
  {
    var i := IndexOf(s, x);
    assert s == s[..i] + [x] + s[i + 1..];
    CutOne(s[..i], x, s[i + 1..]);
  }

  lemma CutOne<T>(head: seq<T>, x: T, tail: seq<T>)
    ensures multiset(head + [x] + tail) - multiset{x} == multiset(head + tail)
  {
    assert multiset(head + [x] + tail) == multiset(head) + multiset{x} + multiset(tail);
    assert multiset(head + tail) == multiset(head) + multiset(tail);
  }

  // ---------------------------------------------------------------------
  // The record

  /** The `xtrace` of a connection: nodes and their extended traces. */
  datatype XTrace = XTrace(nodes: seq<nat>, values: seq<real>)

  /** A `Connection` object; `from`, `to` and `gater` are node indices in the
      arena of nodes (see NeatNode). */
  datatype Connection = Connection(
    from: nat, to: nat, gain: real, weight: real, gater: Option<nat>,
    eligibility: real, previousDeltaWeight: real, totalDeltaWeight: real, xtrace: XTrace)

  /** `new Connection(from, to, weight)`; `r` is the `Math.random()` draw used
      when the weight is `undefined`. */
  function NewConnection(from: nat, to: nat, weight: Option<real>, r: real): (c: Connection)
    requires 0.0 <= r < 1.0
    ensures c.from == from && c.to == to
    ensures c.gain == 1.0 && c.gater == None && c.eligibility == 0.0
    ensures c.previousDeltaWeight == 0.0 && c.totalDeltaWeight == 0.0
    ensures c.xtrace == XTrace([], [])
    ensures weight.Some? ==> c.weight == weight.value
    ensures weight.None? ==> -0.1 <= c.weight < 0.1
  {
    var w := if weight.None? then r * 0.2 - 0.1 else weight.value;
    Connection(from, to, 1.0, w, None, 0.0, 0.0, 0.0, XTrace([], []))
  }

  /** The object `toJSON` returns: the weight only. */
  datatype ConnectionJSON = ConnectionJSON(weight: real)

  function ToJSON(c: Connection): (j: ConnectionJSON)
    ensures j.weight == c.weight
  {
    ConnectionJSON(c.weight)
  }

  // ---------------------------------------------------------------------
  // Innovation numbers

  /** `innovationID(a, b)`, computed as the source does, in exact arithmetic. */
  function InnovationID(a: nat, b: nat): real
  {
    0.5 * ((a + b) as real) * ((a + b + 1) as real) + b as real
  }

  /** The triangular number `0 + 1 + ... + n`. */
  function Tri(n: nat): nat
  {
    if n == 0 then 0 else Tri(n - 1) + n
  }

  /** Cantor's pairing on naturals. */
  function Pair(a: nat, b: nat): nat
  {
    Tri(a + b) + b
  }

  lemma {:induction false} TriClosed(n: nat)
    ensures 2 * Tri(n) == n * (n + 1)
  {
    if n > 0 {
      TriClosed(n - 1);
    }
  }

  /** The innovation number of two natural indices is a natural number: the
      Cantor pair of the indices. */
  lemma InnovationIDIsPair(a: nat, b: nat)
    ensures InnovationID(a, b) == Pair(a, b) as real
  {
    TriClosed(a + b);
    var s := a + b;
    assert (s * (s + 1)) as real == (s as real) * ((s + 1) as real);
  }

  /** Consecutive triangular numbers are more than `s` apart. */
  lemma {:induction false} TriGap(s: nat, t: nat)
    requires s < t
    ensures Tri(s) + s < Tri(t)
  {
    if s + 1 < t {
      TriGap(s, t - 1);
    }
  }

  lemma PairInjective(a: nat, b: nat, c: nat, d: nat)
    requires Pair(a, b) == Pair(c, d)
    ensures a == c && b == d
  {
    if a + b < c + d {
      TriGap(a + b, c + d);
    } else if c + d < a + b {
      TriGap(c + d, a + b);
    }
  }

  /** Distinct pairs of node indices never share an innovation number. */
  lemma InnovationIDInjective(a: nat, b: nat, c: nat, d: nat)
    requires InnovationID(a, b) == InnovationID(c, d)
    ensures a == c && b == d
  {
    InnovationIDIsPair(a, b);
    InnovationIDIsPair(c, d);
    PairInjective(a, b, c, d);
  }
}

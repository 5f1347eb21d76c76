// Model of Javascript/NeatJS/src/multithreading/multi.js: the flat encoding
// of a data set that worker threads receive (`serializeDataSet`,
// `deserializeDataSet`) and the record walk of `activateSerializedNetwork`
// over a serialized network. Numbers are reals; floating-point rounding is
// not modelled.

module NeatMulti {
  import opened NeatConnection

  // ---------------------------------------------------------------------
  // Data sets

  /** An array element: a number, or `undefined`, which is what reading
      past the end of an array gives. */
  datatype Cell = Num(value: real) | Undefined

  /** A sample `{ input, output }` of a data set. */
  datatype Sample = Sample(input: seq<real>, output: seq<real>)

  /** `a[j]` of a number array. */
  function NumAt(a: seq<real>, j: nat): (c: Cell)
    ensures j < |a| ==> c == Num(a[j])
    ensures |a| <= j ==> c == Undefined
  {
    if j < |a| then Num(a[j]) else Undefined
  }

  /** `s[k]` of a cell array. */
  function CellAt(s: seq<Cell>, k: nat): (c: Cell)
    ensures k < |s| ==> c == s[k]
    ensures |s| <= k ==> c == Undefined
  {
    if k < |s| then s[k] else Undefined
  }

  /** The cells the loop `for (j = 0; j < n; j++) push(a[j])` pushes. */
  function Row(a: seq<real>, n: nat): (r: seq<Cell>)
    ensures |r| == n
  {
    if n == 0 then [] else Row(a, n - 1) + [NumAt(a, n - 1)]
  }

  /** The body of the serialized set for the samples `d`, each sample
      contributing `inLen` input cells then `outLen` output cells. */
  function Flat(d: seq<Sample>, inLen: nat, outLen: nat): (r: seq<Cell>)
    decreases |d|
  {
    if d == [] then []
    else
      var last := d[|d| - 1];
      Flat(d[..|d| - 1], inLen, outLen) + Row(last.input, inLen) + Row(last.output, outLen)
  }

  /** `serializeDataSet(dataSet)`: the sizes of the first sample, then every
      sample's inputs and outputs cut or padded to those sizes. An empty
      set throws, since `dataSet[0]` is `undefined`. */
  function Serialized(d: seq<Sample>): (r: Outcome<seq<Cell>>)
  {
    if d == [] then Throws
    else
      var inLen, outLen := |d[0].input|, |d[0].output|;
      Done([Num(inLen as real), Num(outLen as real)] + Flat(d, inLen, outLen))
  }

  lemma {:induction false} RowAt(a: seq<real>, n: nat, j: nat)
    requires j < n
    ensures Row(a, n)[j] == NumAt(a, j)
  {
    if j < n - 1 {
      RowAt(a, n - 1, j);
    }
  }

  lemma {:induction false} FlatLength(d: seq<Sample>, inLen: nat, outLen: nat)
    ensures |Flat(d, inLen, outLen)| == |d| * (inLen + outLen)
    decreases |d|
  {
    if d != [] {
      FlatLength(d[..|d| - 1], inLen, outLen);
      assert |d| * (inLen + outLen) == (|d| - 1) * (inLen + outLen) + (inLen + outLen);
    }
  }

  /** Sample `i` occupies cells `i * size` to `(i + 1) * size` of the body:
      first its inputs, then its outputs. */
  lemma {:induction false} FlatAt(d: seq<Sample>, inLen: nat, outLen: nat, i: nat, j: nat)
    requires i < |d| && j < inLen + outLen
    ensures i * (inLen + outLen) + j < |Flat(d, inLen, outLen)|
            && Flat(d, inLen, outLen)[i * (inLen + outLen) + j]
            == if j < inLen then NumAt(d[i].input, j) else NumAt(d[i].output, j - inLen)
    decreases |d|
  {
    var front := d[..|d| - 1];
    var last := d[|d| - 1];
    FlatLength(front, inLen, outLen);
    var head, rows := Flat(front, inLen, outLen), Row(last.input, inLen) + Row(last.output, outLen);
    assert Flat(d, inLen, outLen) == head + rows;
    BlockAt(head, rows, |front|, inLen + outLen, i, j);
    if i < |d| - 1 {
      FlatAt(front, inLen, outLen, i, j);
      assert front[i] == d[i];
    } else if j < inLen {
      RowAt(last.input, inLen, j);
    } else {
      RowAt(last.output, outLen, j - inLen);
    }
  }

  /** Cell `j` of block `i` of `n` blocks of `size` cells followed by one
      more block. */
  lemma {:induction false} BlockAt<T>(head: seq<T>, rows: seq<T>, n: nat, size: nat, i: nat, j: nat)
    requires |head| == n * size && |rows| == size && i <= n && j < size
    ensures i * size + j < |head + rows|
    ensures i < n ==> i * size + j < |head|
    ensures (head + rows)[i * size + j] == if i < n then head[i * size + j] else rows[j]
  {
    if i < n {
      assert (i + 1) * size <= n * size;
    }
  }

  /** The serialized set holds `2 + n * (inLen + outLen)` cells: the two
      sizes, then for each sample `i` its inputs at `2 + i * size` on and its
      outputs after them, an `undefined` wherever the sample is shorter than
      the first one. */
  lemma {:induction false} SerializedLayout(d: seq<Sample>, i: nat, j: nat)
    requires d != [] && i < |d| && j < |d[0].input| + |d[0].output|
    ensures var r, inLen, outLen := Serialized(d).value, |d[0].input|, |d[0].output|;
            && Start(i, inLen + outLen) + j < |r|
            && r[Start(i, inLen + outLen) + j]
               == if j < inLen then NumAt(d[i].input, j) else NumAt(d[i].output, j - inLen)
  {
    var inLen, outLen := |d[0].input|, |d[0].output|;
    var header, body := [Num(inLen as real), Num(outLen as real)], Flat(d, inLen, outLen);
    FlatAt(d, inLen, outLen, i, j);
    MulMono(0, i, inLen + outLen);
    assert Serialized(d).value == header + body;
    ShiftAt(header, body, i * (inLen + outLen) + j);
  }

  lemma ShiftAt<T>(header: seq<T>, body: seq<T>, k: nat)
    requires |header| == 2 && k < |body|
    ensures 2 + k < |header + body| && (header + body)[2 + k] == body[k]
  {
  }

  /** The loops of `serializeDataSet`. */
  method SerializeDataSet(d: seq<Sample>) returns (res: Outcome<seq<Cell>>)
    ensures res == Serialized(d)
  {
    if d == [] {
      return Throws;
    }
    var inLen, outLen := |d[0].input|, |d[0].output|;
    var header := [Num(inLen as real), Num(outLen as real)];
    var serialized := header;
    var i := 0;
    while i < |d|
      invariant i <= |d| && serialized == header + Flat(d[..i], inLen, outLen)
    {
      ghost var body := Flat(d[..i], inLen, outLen);
      serialized := PushSample(serialized, d[i], inLen, outLen);
      FlatSnoc(d, i, inLen, outLen);
      Regroup4(header, body, Row(d[i].input, inLen), Row(d[i].output, outLen));
      i := i + 1;
    }
    assert d[..i] == d;
    return Done(serialized);
  }

  /** The two inner loops of `serializeDataSet`, for one sample. */
  method PushSample(serialized: seq<Cell>, sample: Sample, inLen: nat, outLen: nat) returns (r: seq<Cell>)
    ensures r == serialized + Row(sample.input, inLen) + Row(sample.output, outLen)
  {
    r := serialized;
    var j := 0;
    while j < inLen
      invariant j <= inLen && r == serialized + Row(sample.input, j)
    {
      Regroup3(serialized, Row(sample.input, j), [NumAt(sample.input, j)]);
      r := r + [NumAt(sample.input, j)];
      j := j + 1;
    }
    var middle := r;
    j := 0;
    while j < outLen
      invariant j <= outLen && r == middle + Row(sample.output, j)
    {
      Regroup3(middle, Row(sample.output, j), [NumAt(sample.output, j)]);
      r := r + [NumAt(sample.output, j)];
      j := j + 1;
    }
  }

  lemma Regroup3<T>(a: seq<T>, b: seq<T>, c: seq<T>)
    ensures a + b + c == a + (b + c)
  {
  }

  lemma Regroup4<T>(a: seq<T>, b: seq<T>, c: seq<T>, e: seq<T>)
    ensures a + b + c + e == a + (b + c + e)
  {
  }

  lemma {:induction false} FlatSnoc(d: seq<Sample>, i: nat, inLen: nat, outLen: nat)
    requires i < |d|
    ensures Flat(d[..i + 1], inLen, outLen)
            == Flat(d[..i], inLen, outLen) + Row(d[i].input, inLen) + Row(d[i].output, outLen)
  {
    assert d[..i + 1][..i] == d[..i];
  }

  /** `x` is a whole number at least 0. */
  predicate IsNat(x: real)
  {
    0.0 <= x && (x.Floor as real) == x
  }

  function ToNat(x: real): (n: nat)
    requires IsNat(x)
    ensures n as real == x
  {
    x.Floor
  }

  /** The header a well-formed set carries: two whole sizes. */
  predicate SizedHeader(s: seq<Cell>)
  {
    2 <= |s| && s[0].Num? && s[1].Num? && IsNat(s[0].value) && IsNat(s[1].value)
  }

  /** A header that is not two numbers makes the sample size `NaN`, and
      the loop bound with it, so no sample is read; whole sizes are the
      only numbers this model takes there. */
  predicate HeaderOk(s: seq<Cell>)
  {
    2 <= |s| && s[0].Num? && s[1].Num? ==> SizedHeader(s)
  }

  /** Sizes summing to 0 with cells after the header make the loop bound
      `Infinity`: the loop never ends. */
  predicate Hangs(s: seq<Cell>)
  {
    SizedHeader(s) && ToNat(s[0].value) + ToNat(s[1].value) == 0 && 2 < |s|
  }

  /** The number of `i` with `i < len / size`, `size > 0`: `len / size`
      rounded up. */
  function Rounds(len: nat, size: nat): nat
    requires 0 < size
    decreases len
  {
    if len == 0 then 0
    else if len <= size then 1
    else 1 + Rounds(len - size, size)
  }

  /** `Rounds` blocks of `size` cover `len`, and one fewer do not. */
  lemma {:induction false} RoundsCover(len: nat, size: nat)
    requires 0 < size
    ensures Rounds(len, size) * size >= len
    ensures Rounds(len, size) == 0 || (Rounds(len, size) - 1) * size < len
    decreases len
  {
    if size < len {
      RoundsCover(len - size, size);
      var n := Rounds(len - size, size);
      assert (1 + n) * size == n * size + size;
    }
  }

  /** The cells `s[start]` to `s[start + n - 1]`, `undefined` past the end. */
  function Slice(s: seq<Cell>, start: nat, n: nat): (r: seq<Cell>)
    ensures |r| == n
  {
    if n == 0 then [] else Slice(s, start, n - 1) + [CellAt(s, start + n - 1)]
  }

  /** Where sample `i` starts in a serialized set. */
  function Start(i: nat, size: nat): nat
  {
    2 + i * size
  }

  /** The first `n` rounds of `deserializeDataSet`: an input array, then an
      output array, per round. */
  function Samples(s: seq<Cell>, inLen: nat, outLen: nat, n: nat): (r: seq<seq<Cell>>)
    ensures |r| == 2 * n
  {
    if n == 0 then []
    else
      var start := Start(n - 1, inLen + outLen);
      Samples(s, inLen, outLen, n - 1) + [Slice(s, start, inLen), Slice(s, start + inLen, outLen)]
  }

  /** `deserializeDataSet(serializedSet)`: as many rounds as `i < (len - 2) /
      size` allows; the last one reads past the end when the body is not a
      whole number of samples. */
  function Deserialized(s: seq<Cell>): (r: seq<seq<Cell>>)
    requires HeaderOk(s) && !Hangs(s)
  {
    if !SizedHeader(s) then []
    else
      var inLen, outLen := ToNat(s[0].value), ToNat(s[1].value);
      if inLen + outLen == 0 then []
      else Samples(s, inLen, outLen, Rounds(|s| - 2, inLen + outLen))
  }

  /** `i < len / size` on reals is `i * size < len` on whole numbers. */
  lemma {:induction false} RealBound(i: nat, len: int, size: nat)
    requires 0 < size
    ensures (i as real) < (len as real) / (size as real) <==> i * size < len
  {
    var q := (len as real) / (size as real);
    assert q * (size as real) == len as real;
    if (i as real) < q {
      assert (i as real) * (size as real) < q * (size as real);
    } else {
      assert (i as real) * (size as real) >= q * (size as real);
    }
  }

  /** `deserializeDataSet`: the sizes, then the loop over the samples. */
  method DeserializeDataSet(s: seq<Cell>) returns (samples: seq<seq<Cell>>)
    requires HeaderOk(s) && !Hangs(s)
    ensures samples == Deserialized(s)
  {
    samples := [];
    if |s| < 2 || !s[0].Num? || !s[1].Num? {
      return;
    }
    var inLen, outLen := ToNat(s[0].value), ToNat(s[1].value);
    if inLen + outLen == 0 {
      return;
    }
    samples := ReadSamples(s, inLen, outLen);
  }

  /** The outer loop of `deserializeDataSet`, for a sample size that is not
      0. */
  method ReadSamples(s: seq<Cell>, inLen: nat, outLen: nat) returns (samples: seq<seq<Cell>>)
    requires 2 <= |s| && 0 < inLen + outLen
    ensures samples == Samples(s, inLen, outLen, Rounds(|s| - 2, inLen + outLen))
  {
    samples := [];
    var size := inLen + outLen;
    ghost var rounds := Rounds(|s| - 2, size);
    var bound := ((|s| - 2) as real) / (size as real);
    var i := 0;
    LoopBound(i, |s| - 2, size);
    while (i as real) < bound
      invariant i <= rounds && samples == Samples(s, inLen, outLen, i)
      invariant (i as real) < bound <==> i < rounds
      decreases rounds - i
    {
      var start := Start(i, inLen + outLen);
      var input := ReadCells(s, start, inLen);
      var output := ReadCells(s, start + inLen, outLen);
      SamplesSnoc(s, inLen, outLen, i);
      samples := samples + [input, output];
      i := i + 1;
      LoopBound(i, |s| - 2, size);
    }
  }

  lemma {:induction false} SamplesSnoc(s: seq<Cell>, inLen: nat, outLen: nat, i: nat)
    ensures var start := Start(i, inLen + outLen);
            Samples(s, inLen, outLen, i + 1)
            == Samples(s, inLen, outLen, i) + [Slice(s, start, inLen), Slice(s, start + inLen, outLen)]
  {
  }

  /** One inner loop of `deserializeDataSet`: the cells `s[from]` to
      `s[from + n - 1]`. */
  method ReadCells(s: seq<Cell>, from: nat, n: nat) returns (cells: seq<Cell>)
    ensures cells == Slice(s, from, n)
  {
    cells := [];
    var j := from;
    while j < from + n
      invariant from <= j <= from + n && cells == Slice(s, from, j - from)
    {
      cells := cells + [CellAt(s, j)];
      j := j + 1;
    }
  }

  /** The loop test `i < (length - 2) / sampleSize` of `deserializeDataSet`
      holds for exactly the first `Rounds` values of `i`. */
  lemma {:induction false} LoopBound(i: nat, len: nat, size: nat)
    requires 0 < size
    ensures (i as real) < (len as real) / (size as real) <==> i < Rounds(len, size)
  {
    RealBound(i, len, size);
    IntBound(i, len, size);
  }

  /** `i * size < len` holds for exactly the first `Rounds` values of `i`. */
  lemma {:induction false} IntBound(i: nat, len: nat, size: nat)
    requires 0 < size
    ensures i * size < len <==> i < Rounds(len, size)
  {
    RoundsCover(len, size);
    var n := Rounds(len, size);
    if i < n {
      MulMono(i, n - 1, size);
    } else {
      MulMono(n, i, size);
    }
  }

  lemma MulMono(a: nat, b: nat, c: nat)
    requires a <= b
    ensures a * c <= b * c
  {
  }

  /** A set of `n` samples, inputs and outputs alternating. */
  function Pairs(d: seq<Sample>): (r: seq<seq<Cell>>)
    ensures |r| == 2 * |d|
  {
    if d == [] then []
    else
      var last := d[|d| - 1];
      Pairs(d[..|d| - 1]) + [Nums(last.input), Nums(last.output)]
  }

  function Nums(a: seq<real>): (r: seq<Cell>)
    ensures |r| == |a|
  {
    if a == [] then [] else Nums(a[..|a| - 1]) + [Num(a[|a| - 1])]
  }

  /** Every sample has the first sample's sizes. */
  predicate Rectangular(d: seq<Sample>)
  {
    d != [] && forall i :: 0 <= i < |d| ==> |d[i].input| == |d[0].input| && |d[i].output| == |d[0].output|
  }

  lemma {:induction false} NumsRow(a: seq<real>, n: nat)
    requires |a| == n
    ensures Row(a, n) == Nums(a)
  {
    if n > 0 {
      NumsRow(a[..n - 1], n - 1);
      RowPrefix(a, n - 1);
    }
  }

  /** A row of the first `n` cells reads only the first `n` elements. */
  lemma {:induction false} RowPrefix(a: seq<real>, n: nat)
    requires n < |a|
    ensures Row(a, n) == Row(a[..n], n)
  {
    if n > 0 {
      RowPrefix(a, n - 1);
      RowPrefix(a[..n], n - 1);
      assert a[..n][..n - 1] == a[..n - 1];
      assert a[..n - 1] == a[..n][..n - 1];
      RowPrefixOf(a, n - 1, n);
    }
  }

  lemma {:induction false} RowPrefixOf(a: seq<real>, m: nat, n: nat)
    requires m <= n <= |a|
    ensures Row(a, m) == Row(a[..n], m)
  {
    if m > 0 {
      RowPrefixOf(a, m - 1, n);
    }
  }

  /** Round `i` of reading a serialized set gives back sample `i`. */
  lemma {:induction false} SampleSlices(d: seq<Sample>, s: seq<Cell>, i: nat)
    requires Rectangular(d) && Serialized(d) == Done(s) && i < |d|
    ensures var inLen, outLen := |d[0].input|, |d[0].output|;
            var start := Start(i, inLen + outLen);
            && Slice(s, start, inLen) == Nums(d[i].input)
            && Slice(s, start + inLen, outLen) == Nums(d[i].output)
  {
    InputPrefix(d, s, i, |d[0].input|);
    assert d[i].input[..|d[0].input|] == d[i].input;
    OutputPrefix(d, s, i, |d[0].output|);
    assert d[i].output[..|d[0].output|] == d[i].output;
  }

  /** The first `n` input cells of sample `i`. */
  lemma {:induction false} InputPrefix(d: seq<Sample>, s: seq<Cell>, i: nat, n: nat)
    requires Rectangular(d) && Serialized(d) == Done(s) && i < |d| && n <= |d[0].input|
    ensures n <= |d[i].input|
    ensures Slice(s, Start(i, |d[0].input| + |d[0].output|), n) == Nums(d[i].input[..n])
  {
    if n > 0 {
      InputPrefix(d, s, i, n - 1);
      SerializedLayout(d, i, n - 1);
      assert d[i].input[..n][..n - 1] == d[i].input[..n - 1];
    }
  }

  /** The first `n` output cells of sample `i`. */
  lemma {:induction false} OutputPrefix(d: seq<Sample>, s: seq<Cell>, i: nat, n: nat)
    requires Rectangular(d) && Serialized(d) == Done(s) && i < |d| && n <= |d[0].output|
    ensures n <= |d[i].output|
    ensures Slice(s, Start(i, |d[0].input| + |d[0].output|) + |d[0].input|, n) == Nums(d[i].output[..n])
  {
    if n > 0 {
      OutputPrefix(d, s, i, n - 1);
      SerializedLayout(d, i, |d[0].input| + n - 1);
      assert d[i].output[..n][..n - 1] == d[i].output[..n - 1];
    }
  }

  /** Each round reads back the next sample. */
  predicate RoundsReadBack(d: seq<Sample>, s: seq<Cell>, inLen: nat, outLen: nat)
  {
    forall i :: 0 <= i < |d| ==>
      Samples(s, inLen, outLen, i + 1) == Samples(s, inLen, outLen, i) + [Nums(d[i].input), Nums(d[i].output)]
  }

  lemma {:induction false} SamplesOfSet(d: seq<Sample>, s: seq<Cell>, inLen: nat, outLen: nat, n: nat)
    requires RoundsReadBack(d, s, inLen, outLen) && n <= |d|
    ensures Samples(s, inLen, outLen, n) == Pairs(d[..n])
  {
    if n > 0 {
      SamplesOfSet(d, s, inLen, outLen, n - 1);
      PairsSnoc(d, n - 1);
    }
  }

  /** One more round reads back one more sample. */
  lemma {:induction false} NextSample(d: seq<Sample>, s: seq<Cell>, inLen: nat, outLen: nat, i: nat)
    requires Rectangular(d) && Serialized(d) == Done(s) && inLen == |d[0].input| && outLen == |d[0].output|
    requires i < |d|
    ensures Samples(s, inLen, outLen, i + 1)
            == Samples(s, inLen, outLen, i) + [Nums(d[i].input), Nums(d[i].output)]
  {
    SamplesSnoc(s, inLen, outLen, i);
    SampleSlices(d, s, i);
  }

  lemma {:induction false} PairsSnoc(d: seq<Sample>, i: nat)
    requires i < |d|
    ensures Pairs(d[..i + 1]) == Pairs(d[..i]) + [Nums(d[i].input), Nums(d[i].output)]
  {
    assert d[..i + 1][..i] == d[..i];
  }

  /** All rounds together give back the whole set. */
  lemma {:induction false} AllSamples(d: seq<Sample>)
    requires Rectangular(d)
    ensures Samples(Serialized(d).value, |d[0].input|, |d[0].output|, |d|) == Pairs(d)
  {
    var s, inLen, outLen := Serialized(d).value, |d[0].input|, |d[0].output|;
    forall i | 0 <= i < |d|
      ensures Samples(s, inLen, outLen, i + 1) == Samples(s, inLen, outLen, i) + [Nums(d[i].input), Nums(d[i].output)]
    {
      NextSample(d, s, inLen, outLen, i);
    }
    SamplesOfSet(d, s, inLen, outLen, |d|);
    assert d[..|d|] == d;
  }

  /** The header of a serialized set reads back as the first sample's sizes,
      and the body as `|d|` rounds. */
  lemma {:induction false} HeaderOf(d: seq<Sample>)
    requires Rectangular(d) && 0 < |d[0].input| + |d[0].output|
    ensures var s := Serialized(d).value;
            && SizedHeader(s) && ToNat(s[0].value) == |d[0].input| && ToNat(s[1].value) == |d[0].output|
            && Rounds(|s| - 2, |d[0].input| + |d[0].output|) == |d|
  {
    FlatLength(d, |d[0].input|, |d[0].output|);
    RoundsExact(|d|, |d[0].input| + |d[0].output|);
  }

  lemma {:induction false} DeserializedIs(s: seq<Cell>, inLen: nat, outLen: nat, n: nat)
    requires SizedHeader(s) && ToNat(s[0].value) == inLen && ToNat(s[1].value) == outLen
    requires 0 < inLen + outLen && Rounds(|s| - 2, inLen + outLen) == n
    ensures HeaderOk(s) && !Hangs(s) && Deserialized(s) == Samples(s, inLen, outLen, n)
  {
  }

  /** `n` blocks of `size` cells take exactly `n` rounds. */
  lemma {:induction false} RoundsExact(n: nat, size: nat)
    requires 0 < size
    ensures Rounds(n * size, size) == n
  {
    if n > 1 {
      RoundsExact(n - 1, size);
      assert n * size - size == (n - 1) * size;
    }
  }

  /** `deserializeDataSet(serializeDataSet(d))` gives back every sample, as
      an input array followed by an output array, when all samples have the
      first one's sizes and those are not both 0. */
  lemma {:induction false} RoundTrip(d: seq<Sample>)
    requires Rectangular(d) && 0 < |d[0].input| + |d[0].output|
    ensures SizedHeader(Serialized(d).value) && !Hangs(Serialized(d).value)
    ensures Deserialized(Serialized(d).value) == Pairs(d)
  {
    HeaderOf(d);
    DeserializedIs(Serialized(d).value, |d[0].input|, |d[0].output|, |d|);
    AllSamples(d);
  }

  /** Samples with no inputs and no outputs do not survive the round trip:
      the sample size is 0, `0 / 0` is `NaN`, and no round runs. */
  lemma {:induction false} EmptySamplesVanish(d: seq<Sample>)
    requires Rectangular(d) && |d[0].input| + |d[0].output| == 0
    ensures Serialized(d) == Done([Num(0.0), Num(0.0)])
    ensures Deserialized([Num(0.0), Num(0.0)]) == [] && |Pairs(d)| == 2 * |d|
  {
    FlatLength(d, 0, 0);
    assert |d[0].input| == 0 && |d[0].output| == 0;
    assert Flat(d, 0, 0) == [];
    assert [Num(0.0), Num(0.0)] + Flat(d, 0, 0) == [Num(0.0), Num(0.0)];
  }

  /** `deserializeDataSet` returns two arrays per round: `2 * ceil((len - 2)
      / size)` of them, with `size` and `size - ...` cells. */
  lemma {:induction false} DeserializedShape(s: seq<Cell>, k: nat)
    requires SizedHeader(s) && 0 < ToNat(s[0].value) + ToNat(s[1].value)
    requires k < |Deserialized(s)|
    ensures var inLen, outLen := ToNat(s[0].value), ToNat(s[1].value);
            && |Deserialized(s)| == 2 * Rounds(|s| - 2, inLen + outLen)
            && |Deserialized(s)[k]| == if k % 2 == 0 then inLen else outLen
  {
    var inLen, outLen := ToNat(s[0].value), ToNat(s[1].value);
    SamplesShape(s, inLen, outLen, Rounds(|s| - 2, inLen + outLen), k);
  }

  lemma {:induction false} SamplesShape(s: seq<Cell>, inLen: nat, outLen: nat, n: nat, k: nat)
    requires k < 2 * n
    ensures |Samples(s, inLen, outLen, n)[k]| == if k % 2 == 0 then inLen else outLen
  {
    if k < 2 * (n - 1) {
      SamplesShape(s, inLen, outLen, n - 1, k);
    }
  }
}

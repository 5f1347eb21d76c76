// Model of Rust/neat/src/main.rs: the linear congruential generator `SimpleRng`
// and the shapes and fixed-seed initialisation of `NeuralNetwork::new`.
// Floating-point conversion of a seed to f64 is kept as an exact real.

module RustNeat {

  const TwoTo32: nat := 0x1_0000_0000
  const TwoTo64: nat := 0x1_0000_0000_0000_0000
  const U32Max: nat := 0xFFFF_FFFF
  const Multiplier: nat := 1664525
  const Increment: nat := 1013904223
  /** `initialize_weights` always seeds its generator with this value. */
  const FixedSeed: nat := 42

  /** The u64 intermediate `1664525 * seed + 1013904223` stays below 2^64. */
  predicate NoOverflow(seed: nat)
  {
    Multiplier * seed + Increment < TwoTo64
  }

  /** One step of the generator: the new value of `self.seed`. */
  function NextSeed(seed: nat): (r: nat)
    requires NoOverflow(seed)
    ensures r < TwoTo32
    ensures (r - (Multiplier * seed + Increment)) % TwoTo32 == 0
  {
    var x := Multiplier * seed + Increment;
    CongruentMod32(x);
    x % TwoTo32
  }

  /** `x % 2^32` differs from `x` by a multiple of 2^32. */
  lemma CongruentMod32(x: nat)
    ensures (x % TwoTo32 - x) % TwoTo32 == 0
  {
    var q := x / TwoTo32;
    assert x % TwoTo32 - x == -q * TwoTo32;
  }

  /** Every seed the generator itself produces is below 2^32, so from then on
      the u64 arithmetic cannot overflow; only an initial seed can. */
  lemma SmallSeedNoOverflow(seed: nat)
    requires seed < TwoTo32
    ensures NoOverflow(seed)
  {
  }

  lemma {:induction false} LargeSeedOverflows()
    ensures !NoOverflow(TwoTo64 - 1)
  {
  }

  /** The seed after `k` draws from a generator created with `FixedSeed`. */
  function SeedAfter(k: nat): (r: nat)
    ensures r < TwoTo32
  {
    if k == 0 then FixedSeed
    else
      var s := SeedAfter(k - 1);
      SmallSeedNoOverflow(s);
      NextSeed(s)
  }

  /** `gen_range(-1.0, 1.0)` applied to the new seed `s`, as an exact real. */
  function UnitRange(s: nat): (r: real)
    requires s <= U32Max
    ensures -1.0 <= r <= 1.0
  {
    -1.0 + 2.0 * ((s as real) / (U32Max as real))
  }

  lemma {:induction false} SeedAfterBelowMax(k: nat)
    ensures SeedAfter(k) <= U32Max
  {
  }

  /** Draw number `k` (counting from 1) of `initialize_weights`. */
  function Draw(k: nat): (r: real)
    ensures -1.0 <= r <= 1.0
  {
    SeedAfterBelowMax(k);
    UnitRange(SeedAfter(k))
  }

  /** Number of draws taken before hidden row `i` is filled: each earlier row
      took `inputSize` weights and one bias, i.e. `RowStart(inputSize, i)`. */
  function RowStart(inputSize: nat, i: nat): nat
  {
    if i == 0 then 0 else RowStart(inputSize, i - 1) + inputSize + 1
  }

  lemma {:induction false} RowStartIsProduct(inputSize: nat, i: nat)
    ensures RowStart(inputSize, i) == i * (inputSize + 1)
  {
    if i > 0 {
      RowStartIsProduct(inputSize, i - 1);
    }
  }

  lemma {:induction false} RowStartMonotone(inputSize: nat, i: nat, i': nat)
    requires i < i'
    ensures RowStart(inputSize, i) + inputSize + 1 <= RowStart(inputSize, i')
  {
    if i + 1 < i' {
      RowStartMonotone(inputSize, i, i' - 1);
    }
  }

  /** Index of the draw that fills `weights_input_hidden[i][j]`. */
  function HiddenWeightDraw(inputSize: nat, i: nat, j: nat): nat
  {
    RowStart(inputSize, i) + j + 1
  }

  /** Index of the draw that fills `bias_hidden[i]`. */
  function HiddenBiasDraw(inputSize: nat, i: nat): nat
  {
    RowStart(inputSize, i) + inputSize + 1
  }

  /** Index of the draw that fills `weights_hidden_output[i]`. */
  function OutputWeightDraw(inputSize: nat, hiddenSize: nat, i: nat): nat
  {
    RowStart(inputSize, hiddenSize) + i + 1
  }

  function OutputBiasDraw(inputSize: nat, hiddenSize: nat): nat
  {
    RowStart(inputSize, hiddenSize) + hiddenSize + 1
  }

  /** The draws are consumed in a fixed order, one per parameter, so no two
      parameters share a draw. */
  lemma {:induction false} DrawsDistinct(inputSize: nat, hiddenSize: nat, i: nat, j: nat, i': nat, j': nat)
    requires i < hiddenSize && j < inputSize && i' < hiddenSize && j' < inputSize
    ensures (i, j) != (i', j') ==> HiddenWeightDraw(inputSize, i, j) != HiddenWeightDraw(inputSize, i', j')
    ensures HiddenWeightDraw(inputSize, i, j) != HiddenBiasDraw(inputSize, i')
    ensures HiddenWeightDraw(inputSize, i, j) < OutputWeightDraw(inputSize, hiddenSize, i')
    ensures OutputWeightDraw(inputSize, hiddenSize, i') < OutputBiasDraw(inputSize, hiddenSize)
  {
    if i < i' {
      RowStartMonotone(inputSize, i, i');
    } else if i' < i {
      RowStartMonotone(inputSize, i', i);
    }
    RowStartMonotone(inputSize, i, hiddenSize);
  }

  class SimpleRng {
    var seed: nat

    constructor (seed: nat)
      ensures this.seed == seed
    {
      this.seed := seed;
    }

    /** The integer part of `next_f64`: the seed update. The method returns the
        new seed, the numerator of the f64 the source returns. In a debug build
        the u64 multiplication panics on overflow, hence the precondition. */
    method NextF64() returns (numerator: nat)
      requires NoOverflow(seed)
      modifies this
      ensures seed == NextSeed(old(seed))
      ensures seed < TwoTo32
      ensures numerator == seed
    {
      seed := (Multiplier * seed + Increment) % TwoTo32;
      numerator := seed;
    }
  }

  /** The `n` values drawn after `start` earlier draws, in order. */
  function DrawnRow(start: nat, n: nat): (r: seq<real>)
    ensures |r| == n
    ensures forall m :: 0 <= m < n ==> r[m] == Draw(start + m + 1)
  {
    if n == 0 then [] else DrawnRow(start, n - 1) + [Draw(start + n)]
  }

  /** `n` consecutive `gen_range(-1.0, 1.0)` calls on `rng`. */
  method DrawValues(rng: SimpleRng, ghost start: nat, n: nat) returns (row: seq<real>)
    requires rng.seed == SeedAfter(start)
    modifies rng
    ensures rng.seed == SeedAfter(start + n)
    ensures row == DrawnRow(start, n)
  {
    row := [];
    for m := 0 to n
      invariant rng.seed == SeedAfter(start + m)
      invariant row == DrawnRow(start, m)
    {
      SmallSeedNoOverflow(rng.seed);
      var s := rng.NextF64();
      SeedAfterBelowMax(start + m + 1);
      row := row + [UnitRange(s)];
    }
  }

  /** The first `i` rows of `weights_input_hidden` after initialisation. */
  function HiddenRows(inputSize: nat, i: nat): (r: seq<seq<real>>)
    ensures |r| == i
    ensures forall k :: 0 <= k < i ==> |r[k]| == inputSize
  {
    if i == 0 then [] else HiddenRows(inputSize, i - 1) + [DrawnRow(RowStart(inputSize, i - 1), inputSize)]
  }

  /** The first `i` entries of `bias_hidden` after initialisation. */
  function HiddenBiases(inputSize: nat, i: nat): (r: seq<real>)
    ensures |r| == i
  {
    if i == 0 then [] else HiddenBiases(inputSize, i - 1) + [Draw(HiddenBiasDraw(inputSize, i - 1))]
  }

  lemma {:induction false} HiddenRowsAt(inputSize: nat, i: nat, k: nat, j: nat)
    requires k < i && j < inputSize
    ensures HiddenRows(inputSize, i)[k][j] == Draw(HiddenWeightDraw(inputSize, k, j))
  {
    if k < i - 1 {
      HiddenRowsAt(inputSize, i - 1, k, j);
    }
  }

  lemma {:induction false} HiddenBiasesAt(inputSize: nat, i: nat, k: nat)
    requires k < i
    ensures HiddenBiases(inputSize, i)[k] == Draw(HiddenBiasDraw(inputSize, k))
  {
    if k < i - 1 {
      HiddenBiasesAt(inputSize, i - 1, k);
    }
  }

  /** The hidden-layer part of `initialize_weights`: for each hidden neuron,
      its `inputSize` incoming weights and then its bias. */
  method DrawHidden(rng: SimpleRng, inputSize: nat, hiddenSize: nat)
      returns (rows: seq<seq<real>>, biases: seq<real>)
    requires rng.seed == SeedAfter(0)
    modifies rng
    ensures rng.seed == SeedAfter(RowStart(inputSize, hiddenSize))
    ensures rows == HiddenRows(inputSize, hiddenSize)
    ensures biases == HiddenBiases(inputSize, hiddenSize)
  {
    rows := [];
    biases := [];
    for i := 0 to hiddenSize
      invariant rng.seed == SeedAfter(RowStart(inputSize, i))
      invariant rows == HiddenRows(inputSize, i)
      invariant biases == HiddenBiases(inputSize, i)
    {
      var row := DrawValues(rng, RowStart(inputSize, i), inputSize);
      var bias := DrawValues(rng, RowStart(inputSize, i) + inputSize, 1);
      rows := rows + [row];
      biases := biases + [bias[0]];
    }
  }

  class NeuralNetwork {
    var inputSize: nat
    var hiddenSize: nat
    var weightsInputHidden: seq<seq<real>>
    var weightsHiddenOutput: seq<real>
    var biasHidden: seq<real>
    var biasOutput: real
    var learningRate: real

    /** The parameters `initialize_weights` leaves behind, as a function of the
        two sizes only. */
    ghost predicate Initialised()
      reads this
    {
      && weightsInputHidden == HiddenRows(inputSize, hiddenSize)
      && biasHidden == HiddenBiases(inputSize, hiddenSize)
      && weightsHiddenOutput == DrawnRow(RowStart(inputSize, hiddenSize), hiddenSize)
      && biasOutput == Draw(OutputBiasDraw(inputSize, hiddenSize))
    }

    /** `NeuralNetwork::new`: zero-filled vectors of the right shapes, then
        `initialize_weights`. */
    constructor (inputSize: nat, hiddenSize: nat, learningRate: real)
      ensures this.inputSize == inputSize && this.hiddenSize == hiddenSize
      ensures this.learningRate == learningRate
      ensures Initialised()
    {
      this.inputSize := inputSize;
      this.hiddenSize := hiddenSize;
      this.weightsInputHidden := seq(hiddenSize, _ => seq(inputSize, _ => 0.0));
      this.weightsHiddenOutput := seq(hiddenSize, _ => 0.0);
      this.biasHidden := seq(hiddenSize, _ => 0.0);
      this.biasOutput := 0.0;
      this.learningRate := learningRate;
      new;
      InitializeWeights();
    }

    /** `initialize_weights`: a generator seeded with 42 fills every weight and
        bias in a fixed order (row by row, each row followed by its bias, then
        the output weights and the output bias), so construction is
        deterministic. */
    method InitializeWeights()
      requires |weightsInputHidden| == hiddenSize && |biasHidden| == hiddenSize
      modifies this
      ensures inputSize == old(inputSize) && hiddenSize == old(hiddenSize)
      ensures learningRate == old(learningRate)
      ensures Initialised()
    {
      var rows, biases, outputRow, bias := DrawAll(inputSize, hiddenSize);
      weightsInputHidden, biasHidden, weightsHiddenOutput, biasOutput := rows, biases, outputRow, bias;
    }

    /** The draws of `initialize_weights`, in order, from a generator seeded
        with the fixed seed. */
    static method DrawAll(inputSize: nat, hiddenSize: nat)
      returns (rows: seq<seq<real>>, biases: seq<real>, outputRow: seq<real>, bias: real)
      ensures rows == HiddenRows(inputSize, hiddenSize) && biases == HiddenBiases(inputSize, hiddenSize)
      ensures outputRow == DrawnRow(RowStart(inputSize, hiddenSize), hiddenSize)
      ensures bias == Draw(OutputBiasDraw(inputSize, hiddenSize))
    {
      var rng := new SimpleRng(FixedSeed);
      rows, biases := DrawHidden(rng, inputSize, hiddenSize);
      outputRow := DrawValues(rng, RowStart(inputSize, hiddenSize), hiddenSize);
      var last := DrawValues(rng, RowStart(inputSize, hiddenSize) + hiddenSize, 1);
      bias := last[0];
    }
  }

  /** What the construction means for single parameters. */
  lemma {:induction false} InitialisedParameters(nn: NeuralNetwork, i: nat, j: nat)
    requires nn.Initialised() && i < nn.hiddenSize && j < nn.inputSize
    ensures nn.weightsInputHidden[i][j] == Draw(HiddenWeightDraw(nn.inputSize, i, j))
    ensures nn.biasHidden[i] == Draw(HiddenBiasDraw(nn.inputSize, i))
    ensures nn.weightsHiddenOutput[i] == Draw(OutputWeightDraw(nn.inputSize, nn.hiddenSize, i))
  {
    HiddenRowsAt(nn.inputSize, nn.hiddenSize, i, j);
    HiddenBiasesAt(nn.inputSize, nn.hiddenSize, i);
  }
}

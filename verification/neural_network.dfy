/**
 * The feed-forward network engine of libs/neural-network/src/lib.rs:
 * random construction from a topology, drawing every bias and weight from
 * the generator in a fixed order, and forward propagation (a ReLU of a
 * biased weighted sum per neuron, a map over the neurons of a layer, a left
 * fold over the layers). Values are reals: `f32` rounding is not modelled.
 */
module NeuralNetwork {
  import opened RandomSource
  import opened Results

  /** The size of one layer in the description handed to `Network.Random`. */
  datatype LayerTopology = LayerTopology(neurons: nat)

  /** `Network::random` fails its `assert!(layers.len() > 1)`. */
  datatype TopologyError = InvalidTopology

  function Min(a: nat, b: nat): nat
  {
    if a <= b then a else b
  }

  /**
   * The weighted sum `inputs.iter().zip(weights).map(|(i, w)| i * w).sum()`:
   * `zip` stops at the end of the shorter of the two sequences.
   */
  function Dot(inputs: seq<real>, weights: seq<real>): real
    decreases |inputs|
  {
    if inputs == [] || weights == [] then 0.0
    else inputs[0] * weights[0] + Dot(inputs[1..], weights[1..])
  }

  /** `(0..n).map(|_| rng.gen_range(-1.0..=1.0)).collect()`: the next `n` draws, in order. */
  function RandomWeights(rng: Rng, n: nat): (r: (seq<real>, Rng))
    ensures |r.0| == n
    ensures forall k :: 0 <= k < n ==> r.0[k] == rng.Peek(k)
    ensures r.1 == rng.Skip(n)
    decreases n
  {
    if n == 0 then ([], rng)
    else
      var (w, rest) := GenRange(rng);
      var (ws, next) := RandomWeights(rest, n - 1);
      ([w] + ws, next)
  }

  datatype Neuron = Neuron(bias: real, weights: seq<real>) {

    /** Every parameter of the neuron lies in the range `gen_range(-1.0..=1.0)` draws from. */
    predicate Bounded()
    {
      && -1.0 <= bias <= 1.0
      && forall k :: 0 <= k < |weights| ==> -1.0 <= weights[k] <= 1.0
    }

    /**
     * `Neuron::random`: the bias is the first draw, then come the
     * `outputSize` weights in order; exactly `1 + outputSize` draws are used.
     */
    static function Random(rng: Rng, outputSize: nat): (r: (Neuron, Rng))
      ensures r.0.bias == rng.Peek(0)
      ensures |r.0.weights| == outputSize
      ensures forall k :: 0 <= k < outputSize ==> r.0.weights[k] == rng.Peek(1 + k)
      ensures r.1 == rng.Skip(1 + outputSize)
      ensures r.0.Bounded()
    {
      var (bias, rest) := GenRange(rng);
      var (weights, next) := RandomWeights(rest, outputSize);
      (Neuron(bias, weights), next)
    }

    /**
     * `Neuron::propagate`: `(bias + Dot(inputs, weights)).max(0.0)`, i.e. the
     * least non-negative value that is at least the biased weighted sum.
     */
    function Propagate(inputs: seq<real>): (output: real)
      ensures output >= 0.0
      ensures output >= bias + Dot(inputs, weights)
      ensures output == 0.0 || output == bias + Dot(inputs, weights)
    {
      var sum := bias + Dot(inputs, weights);
      if sum >= 0.0 then sum else 0.0
    }
  }

  datatype Layer = Layer(neurons: seq<Neuron>) {

    /** `outputs` neurons, each with `inputs` weights. */
    predicate Shaped(inputs: nat, outputs: nat)
    {
      && |neurons| == outputs
      && forall j :: 0 <= j < |neurons| ==> |neurons[j].weights| == inputs
    }

    /**
     * `Layer::random`: `outputNeurons` neurons built one after another by
     * `Neuron.Random`, each with `inputNeurons` weights.
     */
    static function Random(rng: Rng, inputNeurons: nat, outputNeurons: nat): (r: (Layer, Rng))
      ensures r.0.Shaped(inputNeurons, outputNeurons)
      ensures r.1 == rng.Skip(outputNeurons * (inputNeurons + 1))
      decreases outputNeurons
    {
      if outputNeurons == 0 then (Layer([]), rng)
      else
        var (first, rest) := Neuron.Random(rng, inputNeurons);
        var (others, next) := Random(rest, inputNeurons, outputNeurons - 1);
        assert (outputNeurons - 1) * (inputNeurons + 1) + (inputNeurons + 1)
            == outputNeurons * (inputNeurons + 1);
        (Layer([first] + others.neurons), next)
    }

    /** `Layer::propagate`: every neuron applied to the same input. */
    function Propagate(inputs: seq<real>): (outputs: seq<real>)
      ensures |outputs| == |neurons|
      ensures forall j :: 0 <= j < |neurons| ==> outputs[j] == neurons[j].Propagate(inputs)
      decreases |neurons|
    {
      if neurons == [] then []
      else [neurons[0].Propagate(inputs)] + Layer(neurons[1..]).Propagate(inputs)
    }
  }

  /**
   * The number of draws `Network.Random` uses for `topology`: over every
   * adjacent pair (in, out), `out` neurons of one bias and `in` weights each.
   */
  function DrawCount(topology: seq<LayerTopology>): nat
  {
    if |topology| < 2 then 0
    else topology[1].neurons * (topology[0].neurons + 1) + DrawCount(topology[1..])
  }

  /** `layers.windows(2).map(|l| Layer::random(rng, l[0].neurons, l[1].neurons))`. */
  function RandomLayers(rng: Rng, topology: seq<LayerTopology>): (r: (seq<Layer>, Rng))
    ensures |r.0| == if |topology| < 2 then 0 else |topology| - 1
    ensures forall i :: 0 <= i < |r.0| ==>
      r.0[i].Shaped(topology[i].neurons, topology[i + 1].neurons)
    ensures r.1 == rng.Skip(DrawCount(topology))
    decreases |topology|
  {
    if |topology| < 2 then ([], rng)
    else
      var (first, rest) := Layer.Random(rng, topology[0].neurons, topology[1].neurons);
      var (others, next) := RandomLayers(rest, topology[1..]);
      ([first] + others, next)
  }

  datatype Network = Network(layers: seq<Layer>) {

    /** One layer per adjacent pair of `topology`, of the pair's shape. */
    predicate Shaped(topology: seq<LayerTopology>)
    {
      && |topology| >= 2
      && |layers| == |topology| - 1
      && forall i :: 0 <= i < |layers| ==>
           layers[i].Shaped(topology[i].neurons, topology[i + 1].neurons)
    }

    /**
     * `Network::random`: fails its assertion with fewer than two topology
     * entries; otherwise builds a network of the topology's shape and uses
     * exactly `DrawCount(topology)` draws.
     */
    static function Random(rng: Rng, topology: seq<LayerTopology>): (r: Result<(Network, Rng), TopologyError>)
      ensures r.Err? <==> |topology| < 2
      ensures r.Ok? ==> r.value.0.Shaped(topology)
      ensures r.Ok? ==> r.value.1 == rng.Skip(DrawCount(topology))
    {
      if |topology| <= 1 then Err(InvalidTopology)
      else
        var (layers, next) := RandomLayers(rng, topology);
        Ok((Network(layers), next))
    }

    /**
     * `Network::propagate`: the input folded through the layers in order.
     * Without layers the input comes back unchanged; otherwise the output
     * has one non-negative entry per neuron of the last layer, whatever the
     * input's length.
     */
    function Propagate(inputs: seq<real>): (outputs: seq<real>)
      ensures layers == [] ==> outputs == inputs
      ensures layers != [] ==> |outputs| == |layers[|layers| - 1].neurons|
      ensures layers != [] ==> forall k :: 0 <= k < |outputs| ==> outputs[k] >= 0.0
      decreases |layers|
    {
      if layers == [] then inputs
      else Network(layers[1..]).Propagate(layers[0].Propagate(inputs))
    }
  }

  /** The weighted sum ignores the inputs beyond the last weight and the weights beyond the last input. */
  lemma {:induction false} DotZipTruncates(inputs: seq<real>, weights: seq<real>)
    ensures Dot(inputs, weights)
         == Dot(inputs[..Min(|inputs|, |weights|)], weights[..Min(|inputs|, |weights|)])
    decreases |inputs|
  {
    var m := Min(|inputs|, |weights|);
    if inputs != [] && weights != [] {
      DotZipTruncates(inputs[1..], weights[1..]);
      assert inputs[..m][1..] == inputs[1..][..m - 1];
      assert weights[..m][1..] == weights[1..][..m - 1];
    }
  }

  /** The two cases of the neuron test: the zero floor engaged, and 1.15. */
  lemma NeuronPropagateExamples()
    ensures Neuron(0.5, [-0.3, 0.8]).Propagate([-10.0, -10.0]) == 0.0
    ensures Neuron(0.5, [-0.3, 0.8]).Propagate([0.5, 1.0]) == 1.15
  {
    assert Dot([-10.0, -10.0], [-0.3, 0.8]) == 3.0 - 8.0 by {
      assert Dot([-10.0], [0.8]) == -8.0;
    }
    assert Dot([0.5, 1.0], [-0.3, 0.8]) == -0.15 + 0.8 by {
      assert Dot([1.0], [0.8]) == 0.8;
    }
  }

  /** Neuron `j` of a random layer is what `Neuron.Random` builds after the `j` neurons before it. */
  lemma {:induction false} RandomLayerLayout(rng: Rng, inputNeurons: nat, outputNeurons: nat, j: nat)
    requires j < outputNeurons
    ensures Layer.Random(rng, inputNeurons, outputNeurons).0.neurons[j]
         == Neuron.Random(rng.Skip(j * (inputNeurons + 1)), inputNeurons).0
    decreases outputNeurons
  {
    if j > 0 {
      var rest := Neuron.Random(rng, inputNeurons).1;
      RandomLayerLayout(rest, inputNeurons, outputNeurons - 1, j - 1);
      assert (j - 1) * (inputNeurons + 1) + (inputNeurons + 1) == j * (inputNeurons + 1);
    }
  }

  /**
   * Layer `i` of a random network is what `Layer.Random` builds after the
   * draws of the `i` layers before it.
   */
  lemma {:induction false} RandomLayersLayout(rng: Rng, topology: seq<LayerTopology>, i: nat)
    requires i + 1 < |topology|
    ensures RandomLayers(rng, topology).0[i]
         == Layer.Random(rng.Skip(DrawCount(topology[..i + 1])),
                         topology[i].neurons, topology[i + 1].neurons).0
    decreases |topology|
  {
    if i == 0 {
      assert DrawCount(topology[..1]) == 0;
    } else {
      var prefix := topology[..i + 1];
      var rest := Layer.Random(rng, topology[0].neurons, topology[1].neurons).1;
      RandomLayersLayout(rest, topology[1..], i - 1);
      assert prefix[1..] == topology[1..][..i];
      assert DrawCount(prefix)
          == topology[1].neurons * (topology[0].neurons + 1) + DrawCount(topology[1..][..i]);
      assert rest.Skip(DrawCount(topology[1..][..i])) == rng.Skip(DrawCount(prefix));
    }
  }

  /**
   * Where every parameter of a random network comes from: the draws go
   * layer by layer, neuron by neuron, each neuron's bias before its weights.
   */
  lemma RandomNetworkLayout(rng: Rng, topology: seq<LayerTopology>, i: nat, j: nat)
    requires i + 1 < |topology| && j < topology[i + 1].neurons
    ensures var neuron := Network.Random(rng, topology).value.0.layers[i].neurons[j];
            var start := DrawCount(topology[..i + 1]) + j * (topology[i].neurons + 1);
            && neuron.bias == rng.Peek(start)
            && |neuron.weights| == topology[i].neurons
            && forall k :: 0 <= k < topology[i].neurons ==> neuron.weights[k] == rng.Peek(start + 1 + k)
  {
    RandomLayersLayout(rng, topology, i);
    var base := rng.Skip(DrawCount(topology[..i + 1]));
    RandomLayerLayout(base, topology[i].neurons, topology[i + 1].neurons, j);
  }

  /**
   * The first neuron of a random network's first layer is exactly what
   * `Neuron.Random` builds from the same generator.
   */
  lemma RandomNetworkFirstNeuron(rng: Rng, topology: seq<LayerTopology>)
    requires |topology| >= 2 && topology[1].neurons > 0
    ensures Network.Random(rng, topology).value.0.layers[0].neurons[0]
         == Neuron.Random(rng, topology[0].neurons).0
  {
    RandomLayersLayout(rng, topology, 0);
    RandomLayerLayout(rng, topology[0].neurons, topology[1].neurons, 0);
  }

  /** Every bias and weight of a random network lies in `[-1, 1]`. */
  lemma RandomNetworkBounded(rng: Rng, topology: seq<LayerTopology>, i: nat, j: nat)
    requires i + 1 < |topology| && j < topology[i + 1].neurons
    ensures Network.Random(rng, topology).value.0.layers[i].neurons[j].Bounded()
  {
    RandomLayersLayout(rng, topology, i);
    var base := rng.Skip(DrawCount(topology[..i + 1]));
    RandomLayerLayout(base, topology[i].neurons, topology[i + 1].neurons, j);
  }

  /** Propagating through two networks one after the other is propagating through their concatenation. */
  lemma {:induction false} PropagateComposes(first: Network, second: Network, inputs: seq<real>)
    ensures Network(first.layers + second.layers).Propagate(inputs)
         == second.Propagate(first.Propagate(inputs))
    decreases |first.layers|
  {
    if first.layers != [] {
      var rest := Network(first.layers[1..]);
      PropagateComposes(rest, second, first.layers[0].Propagate(inputs));
      assert (first.layers + second.layers)[1..] == rest.layers + second.layers;
    } else {
      assert first.layers + second.layers == second.layers;
    }
  }

  /** The network test: two layers propagate as the second applied to the first's output. */
  lemma PropagateTwoLayers(first: Layer, second: Layer, inputs: seq<real>)
    ensures Network([first, second]).Propagate(inputs)
         == second.Propagate(first.Propagate(inputs))
  {
    PropagateComposes(Network([first]), Network([second]), inputs);
    assert [first] + [second] == [first, second];
  }

  /** The last layer of a network is applied to what the layers before it produce. */
  lemma PropagateLastLayer(network: Network, inputs: seq<real>)
    requires network.layers != []
    ensures network.Propagate(inputs)
         == network.layers[|network.layers| - 1].Propagate(
              Network(network.layers[..|network.layers| - 1]).Propagate(inputs))
  {
    var n := |network.layers|;
    PropagateComposes(Network(network.layers[..n - 1]), Network([network.layers[n - 1]]), inputs);
    assert network.layers[..n - 1] + [network.layers[n - 1]] == network.layers;
  }

  /** A random network's output has one entry per neuron of the topology's last entry, for any input. */
  lemma RandomNetworkOutputLength(rng: Rng, topology: seq<LayerTopology>, inputs: seq<real>)
    requires |topology| >= 2
    ensures |Network.Random(rng, topology).value.0.Propagate(inputs)|
         == topology[|topology| - 1].neurons
  {
    var network := Network.Random(rng, topology).value.0;
    assert network.layers[|topology| - 2].Shaped(topology[|topology| - 2].neurons,
                                                 topology[|topology| - 1].neurons);
  }
}

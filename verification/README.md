# A verified model of the hivemind neuro-evolution core

This project models, in Dafny, the two self-contained libraries at the heart of
the hivemind neuro-evolution simulation:

- **the neural-network engine** (`libs/neural-network/src/lib.rs`). A `Network`
  is a sequence of `Layer`s, a layer a sequence of `Neuron`s, and a neuron a bias
  and a weight vector. `Network::random` builds one layer per adjacent pair of
  `LayerTopology` entries, drawing every bias and weight from the generator.
  `Network::propagate` folds an input vector through the layers. Each neuron
  outputs a ReLU of its bias plus the zip-truncated weighted sum of its inputs.
- **the genetic-algorithm container and selection glue**
  (`libs/genetic-algorithm/src/lib.rs`). It has the `Chromosome` gene vector with
  its accessors, `RouletteWheelSelection::select`, and the part of
  `GeneticAlgorithm::evolve` before its `todo!()`.

Files:

- `results.dfy` (module `Results`): `Result`, with `Err` standing for a panic.
- `random_source.dfy` (module `RandomSource`): the generator (`&mut dyn RngCore`)
  as a value `Rng(draws, pos)`: an infinite stream of values in `[-1, 1]` and a
  cursor `pos` into it. `gen_range(-1.0..=1.0)` returns `draws(pos)` and advances
  `pos` by one; `choose_weighted` may advance it by any amount. The
  stream is infinite, so no operation needs an "enough randomness" precondition.
  Every draw lies in `[-1, 1]` by its type, `Draw`. Code that takes `&mut rng`
  takes an `Rng` and returns the advanced one.
- `neural_network.dfy` (module `NeuralNetwork`): datatypes `Neuron`, `Layer`,
  `Network` and `LayerTopology`, each with its `Random` and `Propagate`. There
  are also lemmas on the draw layout, the shapes and the composition of
  propagation.
- `genetic_algorithm.dfy` (module `GeneticAlgorithm`): the `Chromosome` class
  over an `array<real>`, whose `IterMut` rewrites the genes in place. Selection
  uses a weighted-choice oracle `WeightedChoice`: any function that honours the
  documented contract of `rand`'s `choose_weighted`. It chooses exactly when
  the weights are non-empty, non-negative and not all zero, and then it returns
  an index of positive weight. There is also the selection loop of `evolve`,
  and `evolve` as written.

Three facts about the code shape the model:

- `Neuron::propagate` uses `zip`, so an input of the wrong length is truncated
  (`DotZipTruncates`).
- `evolve` reaches `todo!()` in its first slot, so it never returns a population
  (`Evolve`).
- The only selection strategy is `RouletteWheelSelection`, and it is used
  directly.

## Model

| member | source | states |
|---|---|---|
| `NeuralNetwork.RandomWeights` | libs/neural-network/src/lib.rs:72-74 | the weights are the next `n` draws in order, and exactly `n` draws are used |
| `NeuralNetwork.Neuron.Random` | libs/neural-network/src/lib.rs:66-77 | the bias is the first draw and weight `k` is draw `1 + k`; exactly `1 + n` draws are used; every parameter lies in `[-1, 1]` |
| `NeuralNetwork.Neuron.Propagate` | libs/neural-network/src/lib.rs:79-87 | the output is `max(0, bias + Σ input[k]·weight[k])`: non-negative, at least the biased sum, and equal to it or to 0 |
| `NeuralNetwork.DotZipTruncates` | libs/neural-network/src/lib.rs:80-84 | the weighted sum only uses the first `min(|inputs|, |weights|)` pairs, because `zip` stops at the shorter sequence |
| `NeuralNetwork.NeuronPropagateExamples` | libs/neural-network/src/lib.rs:141-157 | bias 0.5 with weights [-0.3, 0.8] gives 0.0 on [-10, -10] (zero floor) and 1.15 on [0.5, 1.0] |
| `NeuralNetwork.Layer.Random` | libs/neural-network/src/lib.rs:45-55 | the layer has `output` neurons of `input` weights each, and uses exactly `output·(input + 1)` draws |
| `NeuralNetwork.RandomLayerLayout` | libs/neural-network/src/lib.rs:50-52 | neuron `j` of a random layer is what `Neuron.Random` builds after the `j·(input + 1)` draws of the neurons before it; for `j = 0` it is the neuron built from the same starting generator |
| `NeuralNetwork.Layer.Propagate` | libs/neural-network/src/lib.rs:57-62 | the output has one entry per neuron, and entry `j` is neuron `j`'s output on the same input |
| `NeuralNetwork.RandomLayers` | libs/neural-network/src/lib.rs:29-32 | `windows(2)` gives one layer per adjacent topology pair, shaped (in, out), using `DrawCount(topology)` draws in all |
| `NeuralNetwork.Network.Random` | libs/neural-network/src/lib.rs:23-35 | it fails its assertion exactly when there are fewer than two topology entries; otherwise it has `|topology| - 1` layers, layer `i` has `topology[i+1]` neurons of `topology[i]` weights, and it uses Σ `(in + 1)·out` draws |
| `NeuralNetwork.RandomLayersLayout` | libs/neural-network/src/lib.rs:29-32 | layer `i` of a random network is what `Layer.Random` builds after the draws of the layers before it |
| `NeuralNetwork.RandomNetworkLayout` | libs/neural-network/src/lib.rs:29-76 | the draws go layer by layer and neuron by neuron, bias before weights: neuron `j` of layer `i` has its bias at draw `DrawCount(topology[..i+1]) + j·(in + 1)` (also when the layer has no inputs) and its `in` weights at the draws right after it |
| `NeuralNetwork.RandomNetworkFirstNeuron` | libs/neural-network/src/lib.rs:122-134 | the first neuron of a random network's first layer is exactly `Neuron.Random` on the same generator |
| `NeuralNetwork.RandomNetworkBounded` | libs/neural-network/src/lib.rs:70-74 | every bias and weight of a random network lies in `[-1, 1]` |
| `NeuralNetwork.Network.Propagate` | libs/neural-network/src/lib.rs:37-41 | with no layers the input is returned unchanged; otherwise the output has one non-negative entry per neuron of the last layer, whatever the input's length |
| `NeuralNetwork.PropagateComposes` | libs/neural-network/src/lib.rs:37-41 | the left fold composes: propagating through `a ++ b` is propagating through `a` and then through `b` |
| `NeuralNetwork.PropagateTwoLayers` | libs/neural-network/src/lib.rs:177-193 | `propagate([L0, L1], x) == L1.propagate(L0.propagate(x))` |
| `NeuralNetwork.PropagateLastLayer` | libs/neural-network/src/lib.rs:37-41 | the last layer is applied to the output of the layers before it |
| `NeuralNetwork.RandomNetworkOutputLength` | libs/neural-network/src/lib.rs:23-41 | a random network outputs exactly as many values as the last topology entry has neurons, for any input |
| `GeneticAlgorithm.Chromosome.FromIter` | libs/genetic-algorithm/src/lib.rs:97-103 | the new chromosome's genes are the given values, in order, with the same length |
| `GeneticAlgorithm.ChromosomeLaws` | libs/genetic-algorithm/src/lib.rs:78-103 | for a chromosome built from any `values`: `len` is `|values|`, `iter` yields `values` in order, index `i` gives `values[i]` for `i < |values|` and panics otherwise, and after `iter_mut` applies `update` the genes are `update(k, values[k])` position by position |
| `GeneticAlgorithm.Chromosome.IntoIter` | libs/genetic-algorithm/src/lib.rs:104-111 | `into_iter` yields, in order, exactly the values that indexing returns |
| `GeneticAlgorithm.Chromosome.IterMut` | libs/genetic-algorithm/src/lib.rs:86-88 | an update applied through `iter_mut` (optionally enumerated) rewrites gene `k` to `update(k, old gene k)` in place, keeping the length and the positions |
| `GeneticAlgorithm.RoundTrip` | libs/genetic-algorithm/src/lib.rs:97-111 | `from_iter` followed by `into_iter` gives back the original sequence |
| `GeneticAlgorithm.ChromosomeExamples` | libs/genetic-algorithm/src/lib.rs:185-243 | for genes [3.0, 1.0, 2.0]: length 3, `iter` gives [3, 1, 2], index 1 gives 1.0, index 3 panics, and multiplying each gene by 10 gives [30, 10, 20] |
| `GeneticAlgorithm.Select` | libs/genetic-algorithm/src/lib.rs:62-71 | the individuals' fitnesses, in order, are the weights; it returns an index into the population, of positive fitness, exactly when those fitnesses are admissible, with the generator moved forward along the same stream; otherwise it panics with "Empty population" |
| `GeneticAlgorithm.SelectPanics` | libs/genetic-algorithm/src/lib.rs:67-69 | an empty population, a negative fitness or all-zero fitnesses each make `select` panic |
| `GeneticAlgorithm.SelectPairs` | libs/genetic-algorithm/src/lib.rs:43-46 | `n` slots of two selections each give `n` pairs of valid parent indices of positive fitness and a generator further along the same stream, or the selection panic; for `n > 0` they succeed exactly when the fitnesses are admissible |
| `GeneticAlgorithm.SelectPairsLayout` | libs/genetic-algorithm/src/lib.rs:43-46 | the generator is threaded: pair `k` is the two selections made one after the other, the first from the generator the `k` earlier slots leave and the second from the generator the first returns, and slot `k` leaves the generator the second returns |
| `GeneticAlgorithm.SelectParents` | libs/genetic-algorithm/src/lib.rs:37-46 | the loop over `0..population.len()` panics on an empty population, and otherwise makes two selections per slot in order, as `SelectPairs` describes |
| `GeneticAlgorithm.Evolve` | libs/genetic-algorithm/src/lib.rs:37-53 | `evolve` as written never returns: it fails its assertion exactly on an empty population, panics in selection when the fitnesses are not admissible, and otherwise reaches `todo!()` |

## Left out

- Floating point: biases, weights, sums and fitnesses are `real`. `f32` rounding, NaN and infinities are not modelled, so a NaN fitness, which `choose_weighted` rejects, has no counterpart. The ChaCha8-derived constants in the random-construction tests (-0.6255188, 0.67383957, …) depend on the concrete generator and are not modelled.
- The generator's internals (`RngCore`, `gen_range`, `ChaCha8Rng`): only the order and number of draws is modelled. The roulette histogram test `{1: 98, 2: 202, 3: 278, 4: 422}` depends on the seed and on `rand`'s sampling algorithm, so it is out of reach.
- `choose_weighted` itself is a foreign library call. It is an oracle constrained only by its documented contract, plus the fact that it can only move the given generator forward along its own stream. How far it moves it is left to the oracle, and so is the probability of each index. `FirstPositiveChoice` only shows that the contract can be met; it does not describe `rand`.
- `GeneticAlgorithm.Chromosome.IterMut`: covers an `iter_mut` traversal that runs to the end and updates each gene from its position and old value; an update that stops early or draws on other mutable state (a generator) is not modelled.
- `GeneticAlgorithm.Select`: returns the index of the chosen individual and not a reference to it.
- `GeneticAlgorithm.SelectParents`: the rest of each slot (crossover, mutation, conversion back to an individual) is `todo!()` in the source. The method stops at the two selected parent indices. Reading `chromosome()` of each parent is not modelled, because the `Individual` type is abstract here; only its fitness is a parameter.
- `CrossoverMethod`/`UniformCrossover`: the `impl CrossoverMethod for UniformCrossover` has no body, so there is no behaviour to model. No mutation strategy and no gene encoding or decoding of networks exists in the source.
- `GeneticAlgorithm::new`, `RouletteWheelSelection::new`, `UniformCrossover::new`: constructors without logic. The `SelectionMethod` strategy is not a parameter, because `RouletteWheelSelection` is its only implementation.
- `Network.Random`: with fewer than two topology entries the source panics, and the model returns `Err(InvalidTopology)`. What the generator has consumed by then does not matter.
- `libs/simulation/src/animal.rs`: a constructor that hands a three-entry topology to `Network::random`. The `Eye`, the `nalgebra` position and rotation, and `rng.gen()` are not part of this model.
- Test-only scaffolding (`TestIndividual`, the histogram fold).

/**
 * The genetic-algorithm container and selection glue of
 * libs/genetic-algorithm/src/lib.rs: the `Chromosome` gene vector, the
 * roulette-wheel selection over an abstract weighted-choice oracle, and what
 * `GeneticAlgorithm::evolve` does before it reaches its `todo!()`.
 */
module GeneticAlgorithm {
  import opened RandomSource
  import opened Results

  /** Why a call panics. */
  datatype Panic =
    | PopulationIsEmpty  // `assert!(!population.is_empty())` in `evolve`
    | EmptyPopulation    // `.expect("Empty population")` in `select`
    | IndexOutOfBounds   // indexing the gene vector past its end
    | NotImplemented     // `todo!()`

  /** An ordered, fixed-length vector of real-valued genes. */
  class Chromosome {
    var genes: array<real>

    /** `FromIterator`: the genes are the collected values, in order. */
    constructor FromIter(values: seq<real>)
      ensures fresh(genes)
      ensures genes[..] == values
    {
      genes := new real[|values|](k requires 0 <= k < |values| => values[k]);
    }

    /** `len`: the number of stored genes. */
    function Len(): (n: nat)
      reads this
      ensures n == genes.Length
    {
      genes.Length
    }

    /** `chromosome[index]`: gene `index` below `Len()`, a panic from there on. */
    function Index(index: nat): (r: Result<real, Panic>)
      reads this, genes
      ensures r.Ok? <==> index < Len()
      ensures r.Ok? ==> r.value == genes[index]
      ensures r.Err? ==> r.error == IndexOutOfBounds
    {
      if index < genes.Length then Ok(genes[index]) else Err(IndexOutOfBounds)
    }

    /** `iter`: the genes in stored order; reading them changes nothing. */
    function Iter(): (items: seq<real>)
      reads this, genes
      ensures |items| == Len()
      ensures forall k :: 0 <= k < |items| ==> items[k] == genes[k]
    {
      genes[..]
    }

    /** `into_iter`: yields, in order, exactly the values `Index` returns. */
    function IntoIter(): (items: seq<real>)
      reads this, genes
      ensures |items| == Len()
      ensures forall k :: 0 <= k < |items| ==> Index(k) == Ok(items[k])
    {
      genes[..]
    }

    /**
     * `iter_mut().enumerate().for_each(|(k, gene)| *gene = update(k, *gene))`:
     * every gene is rewritten in place from its position and old value; the
     * length and the positions stay as they were.
     */
    method IterMut(update: (nat, real) -> real)
      modifies genes
      ensures genes.Length == old(genes.Length)
      ensures forall k :: 0 <= k < genes.Length ==> genes[k] == update(k, old(genes[k]))
    {
      for k := 0 to genes.Length
        invariant forall j :: 0 <= j < k ==> genes[j] == update(j, old(genes[j]))
        invariant forall j :: k <= j < genes.Length ==> genes[j] == old(genes[j])
      {
        genes[k] := update(k, genes[k]);
      }
    }
  }

  /** `FromIterator` followed by `IntoIterator` gives back the values it was built from. */
  method RoundTrip(values: seq<real>) returns (items: seq<real>)
    ensures items == values
  {
    var chromosome := new Chromosome.FromIter(values);
    items := chromosome.IntoIter();
  }

  /**
   * The accessors on a chromosome built from any `values`: `len` is the
   * number of values, `iter` yields them in order, indexing returns value
   * `index` or panics past the end, and after `iter_mut` applies `update`
   * the genes are `update` of the old genes, position by position.
   */
  method ChromosomeLaws(values: seq<real>, index: nat, update: (nat, real) -> real)
    returns (len: nat, items: seq<real>, at: Result<real, Panic>, updated: seq<real>)
    ensures len == |values|
    ensures items == values
    ensures at == if index < |values| then Ok(values[index]) else Err(IndexOutOfBounds)
    ensures updated == seq(|values|, k requires 0 <= k < |values| => update(k, values[k]))
  {
    var chromosome := new Chromosome.FromIter(values);
    len := chromosome.Len();
    items := chromosome.Iter();
    at := chromosome.Index(index);
    chromosome.IterMut(update);
    updated := chromosome.Iter();
  }

  /**
   * The chromosome tests on the genes [3.0, 1.0, 2.0]: the length, what
   * `iter` and indexing return, and the genes after multiplying each by 10.
   */
  method ChromosomeExamples() returns (len: nat, items: seq<real>, scaled: seq<real>,
                                       second: Result<real, Panic>, beyond: Result<real, Panic>)
    ensures len == 3
    ensures items == [3.0, 1.0, 2.0]
    ensures second == Ok(1.0)
    ensures beyond == Err(IndexOutOfBounds)
    ensures scaled == [30.0, 10.0, 20.0]
  {
    var chromosome := new Chromosome.FromIter([3.0, 1.0, 2.0]);
    len := chromosome.Len();
    items := chromosome.Iter();
    second := chromosome.Index(1);
    beyond := chromosome.Index(3);
    chromosome.IterMut((_, gene) => gene * 10.0);
    scaled := chromosome.Iter();
  }

  /** What `choose_weighted` returns: the chosen index and the advanced generator, or an error. */
  datatype Choice = Chosen(index: nat, rng: Rng) | Rejected

  /** Weights `choose_weighted` accepts: at least one, none negative, not all zero. */
  predicate Admissible(weights: seq<real>)
  {
    && |weights| > 0
    && (forall k :: 0 <= k < |weights| ==> weights[k] >= 0.0)
    && exists k :: 0 <= k < |weights| && weights[k] > 0.0
  }

  /**
   * The documented contract of `choose_weighted`: it chooses exactly when
   * the weights are admissible, and then an item of positive weight; it can
   * only move the generator it was given forward along the same stream.
   */
  ghost predicate HonoursContract(choose: (Rng, seq<real>) -> Choice)
  {
    forall rng, weights ::
      && (choose(rng, weights).Chosen? <==> Admissible(weights))
      && (choose(rng, weights).Chosen? ==>
            && choose(rng, weights).index < |weights|
            && weights[choose(rng, weights).index] > 0.0
            && choose(rng, weights).rng.draws == rng.draws
            && choose(rng, weights).rng.pos >= rng.pos)
  }

  /** The index of the first positive weight of admissible weights. */
  function FirstPositive(weights: seq<real>): (k: nat)
    requires exists k :: 0 <= k < |weights| && weights[k] > 0.0
    ensures k < |weights| && weights[k] > 0.0
    ensures forall j :: 0 <= j < k ==> weights[j] <= 0.0
  {
    if weights[0] > 0.0 then 0
    else
      assert exists k :: 0 <= k < |weights[1..]| && weights[1..][k] > 0.0 by {
        var k :| 0 <= k < |weights| && weights[k] > 0.0;
        assert weights[1..][k - 1] == weights[k];
      }
      1 + FirstPositive(weights[1..])
  }

  /**
   * A deterministic oracle that meets the contract (it takes the first item
   * of positive weight); it shows that the contract can be met at all.
   */
  function FirstPositiveChoice(rng: Rng, weights: seq<real>): (c: Choice)
    ensures c.Chosen? <==> Admissible(weights)
    ensures c.Chosen? ==> c.index < |weights| && weights[c.index] > 0.0
    ensures c.Chosen? ==> c.rng.draws == rng.draws && c.rng.pos >= rng.pos
  {
    if Admissible(weights) then Chosen(FirstPositive(weights), rng) else Rejected
  }

  /** The weighted-choice oracles `choose_weighted` may be: those that honour its contract. */
  type WeightedChoice = choose: (Rng, seq<real>) -> Choice | HonoursContract(choose)
    witness FirstPositiveChoice

  /** The weights handed to `choose_weighted`: each individual's fitness, in order. */
  function Fitnesses<I>(population: seq<I>, fitness: I -> real): (weights: seq<real>)
    ensures |weights| == |population|
    ensures forall k :: 0 <= k < |population| ==> weights[k] == fitness(population[k])
  {
    seq(|population|, k requires 0 <= k < |population| => fitness(population[k]))
  }

  /** One selection: the index of the chosen individual and the advanced generator. */
  datatype Selection = Selection(index: nat, rng: Rng)

  /**
   * `RouletteWheelSelection::select`: a member of the population, of
   * positive fitness, when `choose_weighted` accepts the fitnesses; the
   * panic "Empty population" otherwise (no individual, a negative fitness,
   * or every fitness zero).
   */
  function Select<I>(chooseWeighted: WeightedChoice, fitness: I -> real, rng: Rng, population: seq<I>)
    : (r: Result<Selection, Panic>)
    ensures r.Ok? <==> Admissible(Fitnesses(population, fitness))
    ensures r.Ok? ==> r.value.index < |population| && fitness(population[r.value.index]) > 0.0
    ensures r.Ok? ==> r.value.rng.draws == rng.draws && r.value.rng.pos >= rng.pos
    ensures r.Err? ==> r.error == EmptyPopulation
  {
    match chooseWeighted(rng, Fitnesses(population, fitness))
    case Chosen(index, next) => Ok(Selection(index, next))
    case Rejected => Err(EmptyPopulation)
  }

  /** Selection panics on an empty population, on a negative fitness and when every fitness is zero. */
  lemma SelectPanics<I>(chooseWeighted: WeightedChoice, fitness: I -> real, rng: Rng, population: seq<I>)
    requires || population == []
             || (exists k :: 0 <= k < |population| && fitness(population[k]) < 0.0)
             || (forall k :: 0 <= k < |population| ==> fitness(population[k]) == 0.0)
    ensures Select(chooseWeighted, fitness, rng, population) == Err(EmptyPopulation)
  {
    var weights := Fitnesses(population, fitness);
    if exists k :: 0 <= k < |population| && fitness(population[k]) < 0.0 {
      var k :| 0 <= k < |population| && fitness(population[k]) < 0.0;
      assert weights[k] < 0.0;
    }
  }

  /** The two parents selected for one slot of the next generation. */
  datatype Parents = Parents(a: nat, b: nat)

  /**
   * The selections of `slots` consecutive slots of `evolve`: two `Select`
   * calls per slot, threading the same generator, stopping at the first panic.
   */
  function SelectPairs<I>(chooseWeighted: WeightedChoice, fitness: I -> real, rng: Rng,
                          population: seq<I>, slots: nat): (r: Result<(seq<Parents>, Rng), Panic>)
    ensures r.Ok? ==> |r.value.0| == slots
    ensures r.Ok? ==> forall k :: 0 <= k < slots ==>
      && r.value.0[k].a < |population| && fitness(population[r.value.0[k].a]) > 0.0
      && r.value.0[k].b < |population| && fitness(population[r.value.0[k].b]) > 0.0
    ensures slots > 0 ==> (r.Ok? <==> Admissible(Fitnesses(population, fitness)))
    ensures r.Ok? ==> r.value.1.draws == rng.draws && r.value.1.pos >= rng.pos
    ensures r.Err? ==> r.error == EmptyPopulation
    decreases slots
  {
    if slots == 0 then Ok(([], rng))
    else
      match Select(chooseWeighted, fitness, rng, population)
      case Err(e) => Err(e)
      case Ok(first) =>
        match Select(chooseWeighted, fitness, first.rng, population)
        case Err(e) => Err(e)
        case Ok(second) =>
          match SelectPairs(chooseWeighted, fitness, second.rng, population, slots - 1)
          case Err(e) => Err(e)
          case Ok((rest, next)) => Ok(([Parents(first.index, second.index)] + rest, next))
  }

  /**
   * Slot `k` of the selections: its parents are the two `Select` calls made
   * one after the other, the first from the generator the `k` slots before it
   * leave and the second from the generator the first returns; the slots up
   * to and including `k` leave the generator the second returns.
   */
  lemma {:induction false} SelectPairsLayout<I>(chooseWeighted: WeightedChoice, fitness: I -> real, rng: Rng,
                                                population: seq<I>, slots: nat, k: nat)
    requires k < slots
    requires SelectPairs(chooseWeighted, fitness, rng, population, slots).Ok?
    ensures SelectPairs(chooseWeighted, fitness, rng, population, k).Ok?
    ensures SelectPairs(chooseWeighted, fitness, rng, population, k + 1).Ok?
    ensures var g := SelectPairs(chooseWeighted, fitness, rng, population, k).value.1;
            var first := Select(chooseWeighted, fitness, g, population);
            && first.Ok?
            && Select(chooseWeighted, fitness, first.value.rng, population).Ok?
            && SelectPairs(chooseWeighted, fitness, rng, population, slots).value.0[k]
               == Parents(first.value.index, Select(chooseWeighted, fitness, first.value.rng, population).value.index)
            && SelectPairs(chooseWeighted, fitness, rng, population, k + 1).value.1
               == Select(chooseWeighted, fitness, first.value.rng, population).value.rng
    decreases k
  {
    var first := Select(chooseWeighted, fitness, rng, population);
    var second := Select(chooseWeighted, fitness, first.value.rng, population);
    if k > 0 {
      SelectPairsLayout(chooseWeighted, fitness, second.value.rng, population, slots - 1, k - 1);
    }
  }

  /** `pairs` put in front of the pairs of an outcome; a panic stays a panic. */
  function Prepend(pairs: seq<Parents>, r: Result<(seq<Parents>, Rng), Panic>): Result<(seq<Parents>, Rng), Panic>
  {
    match r
    case Err(e) => Err(e)
    case Ok((rest, next)) => Ok((pairs + rest, next))
  }

  lemma PrependNothing(r: Result<(seq<Parents>, Rng), Panic>)
    ensures Prepend([], r) == r
  {
    match r
    case Err(_) =>
    case Ok((rest, next)) => assert [] + rest == rest;
  }

  lemma PrependTwice(pairs: seq<Parents>, more: seq<Parents>, r: Result<(seq<Parents>, Rng), Panic>)
    ensures Prepend(pairs, Prepend(more, r)) == Prepend(pairs + more, r)
  {
    match r
    case Err(_) =>
    case Ok((rest, next)) => assert pairs + (more + rest) == (pairs + more) + rest;
  }

  /**
   * The loop of `evolve` over `0..population.len()`, up to the parents of
   * each slot: the population must not be empty, and then every slot
   * selects two parents in turn from the threaded generator.
   */
  method SelectParents<I>(chooseWeighted: WeightedChoice, fitness: I -> real, rng: Rng, population: seq<I>)
    returns (r: Result<(seq<Parents>, Rng), Panic>)
    ensures population == [] ==> r == Err(PopulationIsEmpty)
    ensures population != [] ==> r == SelectPairs(chooseWeighted, fitness, rng, population, |population|)
  {
    if population == [] {
      return Err(PopulationIsEmpty);
    }
    var pairs: seq<Parents> := [];
    var current := rng;
    PrependNothing(SelectPairs(chooseWeighted, fitness, rng, population, |population|));
    for slot := 0 to |population|
      invariant |pairs| == slot
      invariant SelectPairs(chooseWeighted, fitness, rng, population, |population|)
             == Prepend(pairs, SelectPairs(chooseWeighted, fitness, current, population, |population| - slot))
    {
      var first := Select(chooseWeighted, fitness, current, population);
      if first.Err? {
        return Err(first.error);
      }
      var second := Select(chooseWeighted, fitness, first.value.rng, population);
      // the fitnesses were just accepted, so the second choice cannot panic
      assert second.Ok?;
      var pair := Parents(first.value.index, second.value.index);
      PrependTwice(pairs, [pair],
        SelectPairs(chooseWeighted, fitness, second.value.rng, population, |population| - slot - 1));
      pairs := pairs + [pair];
      current := second.value.rng;
    }
    assert pairs + [] == pairs;
    return Ok((pairs, current));
  }

  /**
   * `GeneticAlgorithm::evolve` as written: it asserts a non-empty
   * population, selects the two parents of the first slot, and then reaches
   * `todo!()`. It never returns a new population.
   */
  function Evolve<I>(chooseWeighted: WeightedChoice, fitness: I -> real, rng: Rng, population: seq<I>)
    : (r: Result<seq<I>, Panic>)
    ensures r.Err?
    ensures r.error == PopulationIsEmpty <==> population == []
    ensures population != [] ==>
      (r.error == NotImplemented <==> Admissible(Fitnesses(population, fitness)))
    ensures population != [] && !Admissible(Fitnesses(population, fitness)) ==> r.error == EmptyPopulation
  {
    if population == [] then Err(PopulationIsEmpty)
    else
      match SelectPairs(chooseWeighted, fitness, rng, population, 1)
      case Err(e) => Err(e)
      case Ok(_) => Err(NotImplemented)
  }
}

/**
 * The pseudo-random generator that the library threads through random
 * construction and selection (`&mut dyn RngCore`), abstracted as an infinite
 * stream of draws and a cursor into it.
 */
module RandomSource {

  /** A value that `gen_range(-1.0..=1.0)` can return. */
  type Draw = x: real | -1.0 <= x <= 1.0

  /**
   * `draws(k)` is the value that the k-th call of `gen_range(-1.0..=1.0)`
   * on this generator returns; `pos` counts the calls already made.
   */
  datatype Rng = Rng(draws: nat -> Draw, pos: nat) {

    /** The generator after `n` further draws. */
    function Skip(n: nat): Rng
    {
      Rng(draws, pos + n)
    }

    /** The value of the draw `k` places ahead of the cursor. */
    function Peek(k: nat): Draw
    {
      draws(pos + k)
    }
  }

  /** One call of `rng.gen_range(-1.0..=1.0)`: the next draw and the advanced generator. */
  function GenRange(rng: Rng): (Draw, Rng)
  {
    (rng.Peek(0), rng.Skip(1))
  }
}

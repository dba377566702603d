/** The simulation constants, made an explicit configuration value, and the
    injected replacement for the backoff draws. */
module Params {

  /** One set of simulation constants: node count, visibility range (an index
      distance), frame duration and backoff bound (in steps), and horizon. */
  datatype Config = Config(
    numNodes: nat,
    visibilityRange: nat,
    frameDuration: nat,
    backoffMax: nat,
    simTime: nat)
  {
    /** The backoff range [1, backoffMax] is not empty, so every collision
        can take a draw from it. */
    predicate Valid()
    {
      backoffMax >= 1
    }
  }

  /** The values the program runs with. */
  const Default: Config := Config(6, 1, 5, 10, 1000)

  /** `draw(k)` is the k-th backoff value the run takes, standing for the k-th
      call of a uniform integer draw over [1, backoffMax]. */
  ghost predicate ValidDraws(cfg: Config, draw: nat -> int)
  {
    forall k :: 1 <= draw(k) <= cfg.backoffMax
  }
}

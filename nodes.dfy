/** The state one run of either engine owns: per-node queues and countdowns,
    the two statistics counters, and the position in the backoff-draw stream. */
module Nodes {
  import opened Params

  /** `queue[i]` holds node i's pending arrival timestamps, earliest first;
      `backoff[i]` and `transmitting[i]` are its two countdowns; `draws` is how
      many backoff values the run has taken so far. */
  datatype State = State(
    queue: seq<seq<int>>,
    backoff: seq<int>,
    transmitting: seq<int>,
    successes: int,
    collisions: int,
    draws: nat)

  predicate Shaped(cfg: Config, st: State)
  {
    |st.queue| == cfg.numNodes && |st.backoff| == cfg.numNodes && |st.transmitting| == cfg.numNodes
  }

  /** The state a run starts from: the queues are the generated traffic, every
      countdown and counter is zero. */
  function Initial(cfg: Config, traffic: seq<seq<int>>): (r: State)
    ensures r.queue == traffic
    ensures |traffic| == cfg.numNodes ==> Shaped(cfg, r)
    ensures |r.backoff| == cfg.numNodes && |r.transmitting| == cfg.numNodes
    ensures forall i :: 0 <= i < cfg.numNodes ==> r.backoff[i] == 0 && r.transmitting[i] == 0
    ensures r.successes == 0 && r.collisions == 0 && r.draws == 0
  {
    State(traffic, seq(cfg.numNodes, _ => 0), seq(cfg.numNodes, _ => 0), 0, 0, 0)
  }

  predicate Increasing(s: seq<int>)
  {
    forall a, b :: 0 <= a < b < |s| ==> s[a] < s[b]
  }

  /** `q` is what is left of `full` after some heads were popped. */
  predicate IsSuffix(q: seq<int>, full: seq<int>)
  {
    |q| <= |full| && q == full[|full| - |q|..]
  }

  /** The number of frames waiting in all queues together. */
  function TotalLength(qs: seq<seq<int>>): nat
  {
    if qs == [] then 0 else TotalLength(qs[..|qs| - 1]) + |qs[|qs| - 1]|
  }

  /** Popping the head of one queue removes exactly one frame in all. */
  lemma {:induction false} PopHeadLength(qs: seq<seq<int>>, i: int)
    requires 0 <= i < |qs| && qs[i] != []
    ensures TotalLength(qs[i := qs[i][1..]]) + 1 == TotalLength(qs)
  {
    var last := |qs| - 1;
    var popped := qs[i := qs[i][1..]];
    if i == last {
      assert popped[..last] == qs[..last];
    } else {
      assert popped[..last] == qs[..last][i := qs[i][1..]];
      PopHeadLength(qs[..last], i);
    }
  }

  /** Popping a head keeps a queue a suffix of the queue it started as. */
  lemma PopHeadSuffix(q: seq<int>, full: seq<int>)
    requires IsSuffix(q, full) && q != []
    ensures IsSuffix(q[1..], full)
  {
    assert full[|full| - |q|..][1..] == full[|full| - |q[1..]|..];
  }

  /** What holds of every state either engine reaches from `Initial(cfg, init)`:
      countdowns stay within [0, backoffMax] and [0, frameDuration], queues only
      lose heads, one backoff draw is taken per collision, and every frame that
      left a queue was counted exactly once, as a success or as a collision. */
  predicate Consistent(cfg: Config, init: seq<seq<int>>, st: State)
  {
    && Shaped(cfg, st)
    && |init| == cfg.numNodes
    && (forall i :: 0 <= i < cfg.numNodes ==> 0 <= st.backoff[i] <= cfg.backoffMax)
    && (forall i :: 0 <= i < cfg.numNodes ==> 0 <= st.transmitting[i] <= cfg.frameDuration)
    && (forall i :: 0 <= i < cfg.numNodes ==> IsSuffix(st.queue[i], init[i]))
    && 0 <= st.successes
    && 0 <= st.collisions
    && st.draws == st.collisions
    && st.successes + st.collisions + TotalLength(st.queue) == TotalLength(init)
  }

  /** The counters of `later` are at least those of `earlier`. */
  predicate CountersGrow(earlier: State, later: State)
  {
    earlier.successes <= later.successes && earlier.collisions <= later.collisions
  }

  lemma InitialConsistent(cfg: Config, traffic: seq<seq<int>>)
    requires |traffic| == cfg.numNodes
    ensures Consistent(cfg, traffic, Initial(cfg, traffic))
  {
    var st := Initial(cfg, traffic);
    forall i | 0 <= i < cfg.numNodes
      ensures IsSuffix(st.queue[i], traffic[i])
    {
      assert traffic[i][|traffic[i]| - |traffic[i]|..] == traffic[i];
    }
  }

  /** Successes plus collisions never exceed the frames generated; with no
      traffic at all both stay zero. */
  lemma Accounting(cfg: Config, init: seq<seq<int>>, st: State)
    requires Consistent(cfg, init, st)
    ensures 0 <= st.successes && 0 <= st.collisions
    ensures st.successes + st.collisions <= TotalLength(init)
    ensures TotalLength(init) == 0 ==> st.successes == 0 && st.collisions == 0
  {
  }

  /** The value held by a run's arrays and counters. */
  ghost function View(queue: array<seq<int>>, backoff: array<int>, transmitting: array<int>,
                      successes: int, collisions: int, draws: nat): State
    reads queue, backoff, transmitting
  {
    State(queue[..], backoff[..], transmitting[..], successes, collisions, draws)
  }
}

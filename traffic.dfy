/** Frame arrivals: one list of arrival steps per node, built step by step. */
module Traffic {
  import opened Params
  import opened Nodes

  /** Node i's arrival steps among 0 .. steps-1: step t is listed when
      `arrives(t, i)` holds, the injected outcome of that step's arrival test. */
  function Arrivals(arrives: (nat, nat) -> bool, i: nat, steps: nat): (r: seq<int>)
    ensures Increasing(r)
    ensures forall m :: 0 <= m < |r| ==> 0 <= r[m] < steps
    ensures forall t: nat :: t in r <==> t < steps && arrives(t, i)
    ensures |r| <= steps
  {
    if steps == 0 then []
    else
      var t := steps - 1;
      Arrivals(arrives, i, t) + (if arrives(t, i) then [t] else [])
  }

  /** The per-node arrival lists of a run over `steps` steps. */
  function TrafficOf(cfg: Config, arrives: (nat, nat) -> bool, steps: nat): (r: seq<seq<int>>)
    ensures |r| == cfg.numNodes
    ensures forall i :: 0 <= i < |r| ==> Increasing(r[i])
    ensures forall i, t: nat :: 0 <= i < |r| ==> (t in r[i] <==> t < steps && arrives(t, i))
  {
    seq(cfg.numNodes, i requires 0 <= i => Arrivals(arrives, i, steps))
  }

  /** Builds the arrival lists by scanning the steps in increasing order and, in
      each step, the nodes in index order, appending the step to a node's list
      when its arrival test fires. */
  method GenerateTraffic(cfg: Config, arrives: (nat, nat) -> bool, simTime: nat)
    returns (traffic: seq<seq<int>>)
    ensures traffic == TrafficOf(cfg, arrives, simTime)
  {
    traffic := seq(cfg.numNodes, _ => []);
    for t := 0 to simTime
      invariant traffic == TrafficOf(cfg, arrives, t)
    {
      for i := 0 to cfg.numNodes
        invariant |traffic| == cfg.numNodes
        invariant forall j :: 0 <= j < i ==> traffic[j] == Arrivals(arrives, j, t + 1)
        invariant forall j :: i <= j < cfg.numNodes ==> traffic[j] == Arrivals(arrives, j, t)
      {
        if arrives(t, i) {
          traffic := traffic[i := traffic[i] + [t]];
        }
      }
    }
  }

  /** Each generated list is strictly increasing (at most one arrival per node
      per step) and lies within [0, steps). */
  lemma TrafficSorted(cfg: Config, arrives: (nat, nat) -> bool, steps: nat, i: int)
    requires 0 <= i < cfg.numNodes
    ensures |TrafficOf(cfg, arrives, steps)| == cfg.numNodes
    ensures Increasing(TrafficOf(cfg, arrives, steps)[i])
    ensures forall m :: 0 <= m < |TrafficOf(cfg, arrives, steps)[i]| ==>
              0 <= TrafficOf(cfg, arrives, steps)[i][m] < steps
  {
  }

  /** The number of frames a run generates. */
  function TotalArrivals(cfg: Config, arrives: (nat, nat) -> bool): nat
  {
    TotalLength(TrafficOf(cfg, arrives, cfg.simTime))
  }

  /** When the arrival test never fires, every list is empty. */
  lemma {:induction false} NoArrivalsNoTraffic(cfg: Config, arrives: (nat, nat) -> bool, steps: nat)
    requires forall t: nat, i: nat :: !arrives(t, i)
    ensures TotalLength(TrafficOf(cfg, arrives, steps)) == 0
  {
    var tr := TrafficOf(cfg, arrives, steps);
    forall i | 0 <= i < |tr|
      ensures tr[i] == []
    {
      NeverArrivesEmpty(arrives, i, steps);
    }
    AllEmptyTotal(tr);
  }

  lemma {:induction false} NeverArrivesEmpty(arrives: (nat, nat) -> bool, i: nat, steps: nat)
    requires forall t: nat :: !arrives(t, i)
    ensures Arrivals(arrives, i, steps) == []
  {
    if steps > 0 {
      NeverArrivesEmpty(arrives, i, steps - 1);
    }
  }

  lemma {:induction false} AllEmptyTotal(qs: seq<seq<int>>)
    requires forall i :: 0 <= i < |qs| ==> qs[i] == []
    ensures TotalLength(qs) == 0
  {
    if qs != [] {
      AllEmptyTotal(qs[..|qs| - 1]);
    }
  }
}

/** Collision avoidance at the receiver (the RTS/CTS idea reduced to one
    check). In every step the nodes take their turns in index order; a node
    with frame time or backoff left counts one of them down, otherwise a node
    whose head frame has arrived sends it to its right-hand neighbour, and the
    attempt succeeds exactly when no node other than the sender that the
    receiver can hear is transmitting at that moment. A turn sees the
    countdowns as already updated by the turns before it in the same step. */
module Maca {
  import opened Params
  import opened Nodes
  import opened Visibility
  import opened Traffic

  /** The node a sender addresses: the next index, wrapping to 0. */
  function Receiver(cfg: Config, i: int): (r: int)
    requires 0 <= i < cfg.numNodes
    ensures 0 <= r < cfg.numNodes
    ensures i + 1 < cfg.numNodes ==> r == i + 1
    ensures i + 1 == cfg.numNodes ==> r == 0
  {
    (i + 1) % cfg.numNodes
  }

  /** The listed nodes, other than `sender`, that still have frame time left,
      in list order. */
  function Interferers(vis: seq<int>, tr: seq<int>, sender: int): (r: seq<int>)
    requires forall m :: 0 <= m < |vis| ==> 0 <= vis[m] < |tr|
    ensures |r| <= |vis|
  {
    if vis == [] then []
    else
      (if vis[0] != sender && tr[vis[0]] > 0 then [vis[0]] else []) + Interferers(vis[1..], tr, sender)
  }

  lemma {:induction false} InterferersMeans(vis: seq<int>, tr: seq<int>, sender: int)
    requires forall m :: 0 <= m < |vis| ==> 0 <= vis[m] < |tr|
    ensures forall j :: j in Interferers(vis, tr, sender) <==> j in vis && j != sender && 0 <= j < |tr| && tr[j] > 0
  {
    if vis != [] {
      InterferersMeans(vis[1..], tr, sender);
      assert forall j :: j in vis <==> j == vis[0] || j in vis[1..];
    }
  }

  /** Some node the receiver of `i` can hear, other than `i` itself, still has
      frame time left. Neither the sender's own countdown nor the receiver's
      is looked at. */
  predicate Interfered(cfg: Config, tr: seq<int>, i: int)
    requires |tr| == cfg.numNodes && 0 <= i < cfg.numNodes
    ensures Interfered(cfg, tr, i) ==>
              exists j :: 0 <= j < |tr| && j != i && j != Receiver(cfg, i) && tr[j] > 0
  {
    exists j :: 0 <= j < cfg.numNodes && Visible(cfg, Receiver(cfg, i), j) && j != i && tr[j] > 0
  }

  /** The interferer list built from the visibility query of the receiver holds
      exactly the interfering nodes, so it is empty exactly when the attempt is
      not `Interfered`. */
  lemma ReceiverInterferers(cfg: Config, tr: seq<int>, i: int)
    requires |tr| == cfg.numNodes && 0 <= i < cfg.numNodes
    ensures var l := Interferers(VisibleNodes(cfg, Receiver(cfg, i)), tr, i);
            && (forall j :: j in l <==> 0 <= j < cfg.numNodes && Visible(cfg, Receiver(cfg, i), j) && j != i && tr[j] > 0)
            && (l == [] <==> !Interfered(cfg, tr, i))
  {
    var vis := VisibleNodes(cfg, Receiver(cfg, i));
    var l := Interferers(vis, tr, i);
    VisibleNodesMeans(cfg, Receiver(cfg, i));
    InterferersMeans(vis, tr, i);
    if l != [] {
      var j := l[0];
      assert j in l;
      assert Visible(cfg, Receiver(cfg, i), j) && j != i && tr[j] > 0;
      assert Interfered(cfg, tr, i);
    }
    if Interfered(cfg, tr, i) {
      var j :| 0 <= j < cfg.numNodes && Visible(cfg, Receiver(cfg, i), j) && j != i && tr[j] > 0;
      assert j in l;
    }
  }

  /** Node i's turn in step t. */
  function Turn(cfg: Config, t: int, st: State, i: int, draw: nat -> int): (r: State)
    requires Shaped(cfg, st) && 0 <= i < cfg.numNodes
    ensures Shaped(cfg, r)
    ensures CountersGrow(st, r)
  {
    if st.transmitting[i] > 0 then
      st.(transmitting := st.transmitting[i := st.transmitting[i] - 1])
    else if st.backoff[i] > 0 then
      st.(backoff := st.backoff[i := st.backoff[i] - 1])
    else if st.queue[i] != [] && st.queue[i][0] <= t then
      if !Interfered(cfg, st.transmitting, i) then
        st.(transmitting := st.transmitting[i := cfg.frameDuration],
            successes := st.successes + 1,
            queue := st.queue[i := st.queue[i][1..]])
      else
        st.(backoff := st.backoff[i := draw(st.draws)],
            collisions := st.collisions + 1,
            draws := st.draws + 1,
            queue := st.queue[i := st.queue[i][1..]])
    else
      st
  }

  /** The turns of nodes 0 .. k-1, in index order. */
  function Pass(cfg: Config, t: int, st: State, k: nat, draw: nat -> int): (r: State)
    requires Shaped(cfg, st) && k <= cfg.numNodes
    ensures Shaped(cfg, r)
    ensures CountersGrow(st, r)
  {
    if k == 0 then st else Turn(cfg, t, Pass(cfg, t, st, k - 1, draw), k - 1, draw)
  }

  /** One time step: every node takes its turn. */
  function Step(cfg: Config, st: State, t: int, draw: nat -> int): (r: State)
    requires Shaped(cfg, st)
    ensures Shaped(cfg, r)
    ensures CountersGrow(st, r)
  {
    Pass(cfg, t, st, cfg.numNodes, draw)
  }

  /** The state after steps 0 .. steps-1. */
  function Run(cfg: Config, st: State, steps: nat, draw: nat -> int): (r: State)
    requires Shaped(cfg, st)
    ensures Shaped(cfg, r)
  {
    if steps == 0 then st else Step(cfg, Run(cfg, st, steps - 1, draw), steps - 1, draw)
  }

  // ---------------------------------------------------------------------
  // Properties of one turn

  /** A turn changes node i's row only. */
  lemma TurnLocal(cfg: Config, t: int, st: State, i: int, draw: nat -> int, j: int)
    requires Shaped(cfg, st) && 0 <= i < cfg.numNodes && 0 <= j < cfg.numNodes && j != i
    ensures var r := Turn(cfg, t, st, i, draw);
            r.queue[j] == st.queue[j] && r.backoff[j] == st.backoff[j] && r.transmitting[j] == st.transmitting[j]
  {
  }

  /** Node i is attempting a transmission in its turn: nothing is left to
      count down and its head frame has arrived. */
  predicate Attempts(cfg: Config, t: int, st: State, i: int)
    requires Shaped(cfg, st) && 0 <= i < cfg.numNodes
    ensures Attempts(cfg, t, st, i) ==>
              st.queue[i] != [] && forall draw :: Turn(cfg, t, st, i, draw).queue[i] == st.queue[i][1..]
    ensures !(st.transmitting[i] > 0) && !(st.backoff[i] > 0) && !Attempts(cfg, t, st, i) ==>
              forall draw :: Turn(cfg, t, st, i, draw).queue[i] == st.queue[i]
  {
    !(st.transmitting[i] > 0) && !(st.backoff[i] > 0) && st.queue[i] != [] && st.queue[i][0] <= t
  }

  /** A turn does exactly one thing: with frame time left it lowers that by
      one and touches nothing else; otherwise, with backoff left, it lowers
      that by one and touches nothing else; otherwise it attempts when the
      head frame has arrived, and is idle when not. */
  lemma TurnCases(cfg: Config, t: int, st: State, i: int, draw: nat -> int)
    requires Shaped(cfg, st) && 0 <= i < cfg.numNodes
    ensures var r := Turn(cfg, t, st, i, draw);
            && (st.transmitting[i] > 0 ==>
                  r == st.(transmitting := st.transmitting[i := st.transmitting[i] - 1]))
            && (!(st.transmitting[i] > 0) && st.backoff[i] > 0 ==>
                  r == st.(backoff := st.backoff[i := st.backoff[i] - 1]))
            && (!(st.transmitting[i] > 0) && !(st.backoff[i] > 0) && !Attempts(cfg, t, st, i) ==>
                  r == st)
  {
  }

  /** An attempt removes the head frame of node i and adds one to exactly one
      counter: to successes when no node the receiver hears, other than the
      sender, is transmitting, and then node i's frame countdown is set to
      frameDuration; to collisions otherwise, and then node i takes the next
      backoff draw, a value in [1, backoffMax]. */
  lemma AttemptOutcome(cfg: Config, t: int, st: State, i: int, draw: nat -> int)
    requires Shaped(cfg, st) && 0 <= i < cfg.numNodes && ValidDraws(cfg, draw)
    requires Attempts(cfg, t, st, i)
    ensures var r := Turn(cfg, t, st, i, draw);
            && r.queue[i] == st.queue[i][1..]
            && r.successes + r.collisions == st.successes + st.collisions + 1
            && (r.successes == st.successes + 1 <==> !Interfered(cfg, st.transmitting, i))
            && (!Interfered(cfg, st.transmitting, i) ==>
                  r.transmitting[i] == cfg.frameDuration && r.backoff[i] == st.backoff[i] && r.draws == st.draws)
            && (Interfered(cfg, st.transmitting, i) ==>
                  && r.backoff[i] == draw(st.draws) && 1 <= r.backoff[i] <= cfg.backoffMax
                  && r.transmitting[i] == st.transmitting[i] && r.draws == st.draws + 1)
  {
  }

  /** Whether an attempt succeeds depends neither on the sender's own
      countdown nor on the receiver's. */
  lemma OwnAndReceiverIgnored(cfg: Config, tr: seq<int>, i: int, x: int, y: int)
    requires |tr| == cfg.numNodes && 0 <= i < cfg.numNodes
    ensures var tr' := tr[i := x][Receiver(cfg, i) := y];
            Interfered(cfg, tr, i) <==> Interfered(cfg, tr', i)
  {
    var rcv := Receiver(cfg, i);
    var tr' := tr[i := x][rcv := y];
    if Interfered(cfg, tr, i) {
      var j :| 0 <= j < cfg.numNodes && Visible(cfg, rcv, j) && j != i && tr[j] > 0;
      assert tr'[j] > 0;
    }
    if Interfered(cfg, tr', i) {
      var j :| 0 <= j < cfg.numNodes && Visible(cfg, rcv, j) && j != i && tr'[j] > 0;
      assert tr[j] > 0;
    }
  }

  /** A turn keeps `Consistent`. */
  lemma TurnConsistent(cfg: Config, init: seq<seq<int>>, t: int, st: State, i: int, draw: nat -> int)
    requires cfg.Valid() && ValidDraws(cfg, draw) && Consistent(cfg, init, st) && 0 <= i < cfg.numNodes
    ensures Consistent(cfg, init, Turn(cfg, t, st, i, draw))
  {
    if Attempts(cfg, t, st, i) {
      PopHeadLength(st.queue, i);
      PopHeadSuffix(st.queue[i], init[i]);
    }
  }

  // ---------------------------------------------------------------------
  // Properties of a step

  /** The turns of nodes 0 .. k-1 leave the rows of nodes k .. n-1 as they
      were at the start of the step. */
  lemma {:induction false} PassUntouched(cfg: Config, t: int, st: State, k: nat, draw: nat -> int, j: int)
    requires Shaped(cfg, st) && k <= j < cfg.numNodes
    ensures var r := Pass(cfg, t, st, k, draw);
            r.queue[j] == st.queue[j] && r.backoff[j] == st.backoff[j] && r.transmitting[j] == st.transmitting[j]
  {
    if k > 0 {
      PassUntouched(cfg, t, st, k - 1, draw, j);
      TurnLocal(cfg, t, Pass(cfg, t, st, k - 1, draw), k - 1, draw, j);
    }
  }

  /** Once node j has taken its turn, the later turns of the step leave its
      row alone. */
  lemma {:induction false} PassSettled(cfg: Config, t: int, st: State, k: nat, draw: nat -> int, j: int)
    requires Shaped(cfg, st) && 0 <= j < k <= cfg.numNodes
    ensures var r := Pass(cfg, t, st, k, draw);
            var d := Pass(cfg, t, st, j + 1, draw);
            r.queue[j] == d.queue[j] && r.backoff[j] == d.backoff[j] && r.transmitting[j] == d.transmitting[j]
  {
    if k > j + 1 {
      PassSettled(cfg, t, st, k - 1, draw, j);
      TurnLocal(cfg, t, Pass(cfg, t, st, k - 1, draw), k - 1, draw, j);
    }
  }

  /** Node i's row after a step is what its own turn made of it, taken on the
      state left by the turns of nodes 0 .. i-1: its own row as at the start of
      the step, the rows of lower nodes already updated in this step, those of
      higher nodes not yet. */
  lemma StepOrder(cfg: Config, t: int, st: State, i: int, draw: nat -> int)
    requires Shaped(cfg, st) && 0 <= i < cfg.numNodes
    ensures var before := Pass(cfg, t, st, i, draw);
            var r := Step(cfg, st, t, draw);
            var d := Turn(cfg, t, before, i, draw);
            && before.queue[i] == st.queue[i] && before.backoff[i] == st.backoff[i]
            && before.transmitting[i] == st.transmitting[i]
            && (forall j :: i < j < cfg.numNodes ==> before.transmitting[j] == st.transmitting[j])
            && r.queue[i] == d.queue[i] && r.backoff[i] == d.backoff[i] && r.transmitting[i] == d.transmitting[i]
  {
    PassUntouched(cfg, t, st, i, draw, i);
    forall j | i < j < cfg.numNodes
      ensures Pass(cfg, t, st, i, draw).transmitting[j] == st.transmitting[j]
    {
      PassUntouched(cfg, t, st, i, draw, j);
    }
    PassSettled(cfg, t, st, cfg.numNodes, draw, i);
  }

  /** A node whose queue is empty at the start of a step does not attempt in
      it, and its queue is still empty after it. */
  lemma {:induction false} PassKeepsEmpty(cfg: Config, t: int, st: State, k: nat, draw: nat -> int, i: int)
    requires Shaped(cfg, st) && k <= cfg.numNodes && 0 <= i < cfg.numNodes && st.queue[i] == []
    ensures Pass(cfg, t, st, k, draw).queue[i] == []
  {
    if k > 0 {
      PassKeepsEmpty(cfg, t, st, k - 1, draw, i);
      if k - 1 != i {
        TurnLocal(cfg, t, Pass(cfg, t, st, k - 1, draw), k - 1, draw, i);
      }
    }
  }

  /** Once a node's queue is empty it never attempts again for the rest of the
      run. */
  lemma {:induction false} QueueExhausted(cfg: Config, st: State, early: nat, late: nat, draw: nat -> int, i: int)
    requires Shaped(cfg, st) && early <= late && 0 <= i < cfg.numNodes
    requires Run(cfg, st, early, draw).queue[i] == []
    ensures Run(cfg, st, late, draw).queue[i] == []
    ensures !Attempts(cfg, late, Pass(cfg, late, Run(cfg, st, late, draw), i, draw), i)
    decreases late - early
  {
    var r := Run(cfg, st, early, draw);
    PassKeepsEmpty(cfg, early, r, cfg.numNodes, draw, i);
    PassUntouched(cfg, early, r, i, draw, i);
    if early < late {
      QueueExhausted(cfg, st, early + 1, late, draw, i);
    }
  }

  /** The turns of a step keep `Consistent`. */
  lemma {:induction false} PassConsistent(cfg: Config, init: seq<seq<int>>, t: int, st: State, k: nat, draw: nat -> int)
    requires cfg.Valid() && ValidDraws(cfg, draw) && Consistent(cfg, init, st) && k <= cfg.numNodes
    ensures Consistent(cfg, init, Pass(cfg, t, st, k, draw))
  {
    if k > 0 {
      PassConsistent(cfg, init, t, st, k - 1, draw);
      TurnConsistent(cfg, init, t, Pass(cfg, t, st, k - 1, draw), k - 1, draw);
    }
  }

  /** Every state of a run satisfies `Consistent`. */
  lemma RunConsistent(cfg: Config, traffic: seq<seq<int>>, steps: nat, draw: nat -> int)
    requires cfg.Valid() && ValidDraws(cfg, draw) && |traffic| == cfg.numNodes
    ensures Consistent(cfg, traffic, Run(cfg, Initial(cfg, traffic), steps, draw))
  {
    InitialConsistent(cfg, traffic);
    RunKeepsConsistent(cfg, traffic, Initial(cfg, traffic), 0, steps, draw);
  }

  /** Once a state of a run satisfies `Consistent`, every later one does. */
  lemma {:induction false} RunKeepsConsistent(cfg: Config, init: seq<seq<int>>, st: State, early: nat, late: nat, draw: nat -> int)
    requires cfg.Valid() && ValidDraws(cfg, draw) && Shaped(cfg, st) && early <= late
    requires Consistent(cfg, init, Run(cfg, st, early, draw))
    ensures Consistent(cfg, init, Run(cfg, st, late, draw))
    decreases late - early
  {
    if early < late {
      PassConsistent(cfg, init, early, Run(cfg, st, early, draw), cfg.numNodes, draw);
      RunKeepsConsistent(cfg, init, st, early + 1, late, draw);
    }
  }

  /** Over a run the counters only grow: from any step to any later one. */
  lemma {:induction false} RunCountersGrow(cfg: Config, st: State, early: nat, late: nat, draw: nat -> int)
    requires Shaped(cfg, st) && early <= late
    ensures CountersGrow(Run(cfg, st, early, draw), Run(cfg, st, late, draw))
    decreases late - early
  {
    if early < late {
      RunCountersGrow(cfg, st, early + 1, late, draw);
    }
  }

  // ---------------------------------------------------------------------
  // The engine, in place on the per-node arrays

  /** One step on the arrays: the nodes take their turns in index order. */
  method StepInPlace(cfg: Config, t: int, draw: nat -> int,
                     queue: array<seq<int>>, backoff: array<int>, transmitting: array<int>,
                     successes: int, collisions: int, draws: nat)
    returns (successes': int, collisions': int, draws': nat)
    requires queue.Length == cfg.numNodes && backoff.Length == cfg.numNodes && transmitting.Length == cfg.numNodes
    requires backoff != transmitting
    modifies queue, backoff, transmitting
    ensures View(queue, backoff, transmitting, successes', collisions', draws') ==
            Step(cfg, old(View(queue, backoff, transmitting, successes, collisions, draws)), t, draw)
  {
    ghost var st := View(queue, backoff, transmitting, successes, collisions, draws);
    successes', collisions', draws' := successes, collisions, draws;
    for i := 0 to cfg.numNodes
      invariant View(queue, backoff, transmitting, successes', collisions', draws') == Pass(cfg, t, st, i, draw)
    {
      ghost var before := View(queue, backoff, transmitting, successes', collisions', draws');
      if transmitting[i] > 0 {
        transmitting[i] := transmitting[i] - 1;
        assert View(queue, backoff, transmitting, successes', collisions', draws') == Turn(cfg, t, before, i, draw);
        continue;
      }
      if backoff[i] > 0 {
        backoff[i] := backoff[i] - 1;
        assert View(queue, backoff, transmitting, successes', collisions', draws') == Turn(cfg, t, before, i, draw);
        continue;
      }
      if queue[i] != [] && queue[i][0] <= t {
        var receiver := Receiver(cfg, i);
        var interferers := Interferers(VisibleNodes(cfg, receiver), transmitting[..], i);
        ReceiverInterferers(cfg, transmitting[..], i);
        if interferers == [] {
          transmitting[i] := cfg.frameDuration;
          successes' := successes' + 1;
          queue[i] := queue[i][1..];
        } else {
          backoff[i] := draw(draws');
          collisions' := collisions' + 1;
          draws' := draws' + 1;
          queue[i] := queue[i][1..];
        }
      }
      assert View(queue, backoff, transmitting, successes', collisions', draws') == Turn(cfg, t, before, i, draw);
    }
  }

  /** A whole run: the traffic is generated, then simTime steps are simulated.
      Returns the success and collision counts of the final state. */
  method Simulate(cfg: Config, arrives: (nat, nat) -> bool, draw: nat -> int)
    returns (successes: int, collisions: int)
    requires cfg.Valid() && ValidDraws(cfg, draw)
    ensures var final := Run(cfg, Initial(cfg, TrafficOf(cfg, arrives, cfg.simTime)), cfg.simTime, draw);
            successes == final.successes && collisions == final.collisions
    ensures 0 <= successes && 0 <= collisions
    ensures successes + collisions <= TotalArrivals(cfg, arrives)
    ensures (forall t: nat, i: nat :: !arrives(t, i)) ==> successes == 0 && collisions == 0
  {
    var n := cfg.numNodes;
    var traffic := GenerateTraffic(cfg, arrives, cfg.simTime);
    var queue := new seq<int>[n](i requires 0 <= i < n => traffic[i]);
    var transmitting := new int[n](_ => 0);
    var backoff := new int[n](_ => 0);
    var draws: nat := 0;
    successes, collisions := 0, 0;
    ghost var init := Initial(cfg, traffic);
    assert View(queue, backoff, transmitting, successes, collisions, draws) == init;
    for t := 0 to cfg.simTime
      invariant View(queue, backoff, transmitting, successes, collisions, draws) == Run(cfg, init, t, draw)
    {
      successes, collisions, draws := StepInPlace(cfg, t, draw, queue, backoff, transmitting, successes, collisions, draws);
    }
    RunConsistent(cfg, traffic, cfg.simTime, draw);
    Accounting(cfg, traffic, Run(cfg, init, cfg.simTime, draw));
    ghost var never := forall t: nat, i: nat :: !arrives(t, i);
    if never {
      NoArrivalsNoTraffic(cfg, arrives, cfg.simTime);
    }
  }
}

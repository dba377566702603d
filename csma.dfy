/** Carrier sensing at the sender. In every step all nodes are scanned for
    candidates, then the candidates are arbitrated: two or more collide, one
    alone starts transmitting. Finally every running transmission countdown
    advances. */
module Csma {
  import opened Params
  import opened Nodes
  import opened Visibility
  import opened Traffic

  /** Some listed node still has frame time left. */
  function AnyTransmitting(vis: seq<int>, tr: seq<int>): (r: bool)
    requires forall m :: 0 <= m < |vis| ==> 0 <= vis[m] < |tr|
    ensures r <==> exists v :: v in vis && 0 <= v < |tr| && tr[v] > 0
  {
    if vis == [] then false
    else
      assert forall v :: v in vis <==> v == vis[0] || v in vis[1..];
      tr[vis[0]] > 0 || AnyTransmitting(vis[1..], tr)
  }

  /** Scanning the list returned by the visibility query for a running
      countdown finds one exactly when some node within range of `i` has frame
      time left. */
  lemma AnyVisibleTransmitting(cfg: Config, tr: seq<int>, i: int)
    requires |tr| == cfg.numNodes
    ensures AnyTransmitting(VisibleNodes(cfg, i), tr) <==>
              exists v :: 0 <= v < cfg.numNodes && Visible(cfg, i, v) && tr[v] > 0
  {
    VisibleNodesMeans(cfg, i);
  }

  /** Some node within range of `i` still has frame time left: what the
      sender's scan of its visibility list decides (AnyVisibleTransmitting).
      Only the neighbours are sensed: the medium is only ever busy because of
      another node's countdown, never node i's own. */
  predicate SenderBusy(cfg: Config, tr: seq<int>, i: int)
    requires |tr| == cfg.numNodes
    ensures SenderBusy(cfg, tr, i) ==> exists v :: 0 <= v < |tr| && v != i && tr[v] > 0
  {
    exists v :: 0 <= v < cfg.numNodes && Visible(cfg, i, v) && tr[v] > 0
  }

  /** Node i competes in step t: it has no backoff left, its head frame has
      arrived, and it senses the medium idle. */
  predicate IsCandidate(cfg: Config, st: State, t: int, i: int)
    requires Shaped(cfg, st) && 0 <= i < cfg.numNodes
    ensures IsCandidate(cfg, st, t, i) ==>
              forall v :: Visible(cfg, i, v) ==> st.transmitting[v] <= 0
  {
    !(st.backoff[i] > 0) && st.queue[i] != [] && st.queue[i][0] <= t && !SenderBusy(cfg, st.transmitting, i)
  }

  /** The candidates among nodes 0 .. k-1, in the order the scan appends them. */
  function CandidatesBelow(cfg: Config, st: State, t: int, k: nat): (r: seq<int>)
    requires Shaped(cfg, st) && k <= cfg.numNodes
    ensures Increasing(r)
    ensures forall m :: 0 <= m < |r| ==> 0 <= r[m] < k && IsCandidate(cfg, st, t, r[m])
    ensures forall j :: j in r <==> 0 <= j < k && IsCandidate(cfg, st, t, j)
  {
    if k == 0 then []
    else
      var j := k - 1;
      CandidatesBelow(cfg, st, t, j) + (if IsCandidate(cfg, st, t, j) then [j] else [])
  }

  /** The candidate list of step t: every candidate once, in index order. */
  function Candidates(cfg: Config, st: State, t: int): (r: seq<int>)
    requires Shaped(cfg, st)
    ensures Increasing(r)
    ensures forall m :: 0 <= m < |r| ==> 0 <= r[m] < cfg.numNodes && IsCandidate(cfg, st, t, r[m])
    ensures forall j :: j in r <==> 0 <= j < cfg.numNodes && IsCandidate(cfg, st, t, j)
  {
    CandidatesBelow(cfg, st, t, cfg.numNodes)
  }

  /** Every positive countdown moves one step down. */
  function CountDown(s: seq<int>): (r: seq<int>)
    ensures |r| == |s|
    ensures forall i :: 0 <= i < |s| ==> r[i] == (if s[i] > 0 then s[i] - 1 else s[i])
  {
    seq(|s|, i requires 0 <= i < |s| => if s[i] > 0 then s[i] - 1 else s[i])
  }

  /** The collision branch: each colliding node, in list order, takes the next
      backoff draw and loses its head frame. */
  function DropAll(st: State, cand: seq<int>, draw: nat -> int): (r: State)
    requires |st.queue| == |st.backoff|
    requires Increasing(cand)
    requires forall m :: 0 <= m < |cand| ==> 0 <= cand[m] < |st.queue| && st.queue[cand[m]] != []
    ensures |r.queue| == |st.queue| && |r.backoff| == |st.backoff|
    ensures r.transmitting == st.transmitting && r.successes == st.successes && r.collisions == st.collisions
    ensures r.draws == st.draws + |cand|
    ensures forall j :: 0 <= j < |st.queue| && Above(cand, j) ==> r.queue[j] == st.queue[j]
    decreases |cand|
  {
    if cand == [] then st
    else
      var last := |cand| - 1;
      var i := cand[last];
      var prev := DropAll(st, cand[..last], draw);
      prev.(queue := prev.queue[i := prev.queue[i][1..]],
            backoff := prev.backoff[i := draw(prev.draws)],
            draws := prev.draws + 1)
  }

  /** `j` lies above every entry of the increasing list `cand`. */
  predicate Above(cand: seq<int>, j: int)
  {
    cand == [] || cand[|cand| - 1] < j
  }

  /** In the collision branch every node not listed keeps its queue and its
      backoff. */
  lemma {:induction false} DropAllUntouched(st: State, cand: seq<int>, draw: nat -> int)
    requires |st.queue| == |st.backoff|
    requires Increasing(cand)
    requires forall m :: 0 <= m < |cand| ==> 0 <= cand[m] < |st.queue| && st.queue[cand[m]] != []
    ensures var r := DropAll(st, cand, draw);
            forall j :: 0 <= j < |st.queue| && j !in cand ==> r.queue[j] == st.queue[j] && r.backoff[j] == st.backoff[j]
    decreases |cand|
  {
    if cand != [] {
      var front := cand[..|cand| - 1];
      DropAllUntouched(st, front, draw);
      forall j | 0 <= j < |st.queue| && j !in cand
        ensures DropAll(st, cand, draw).queue[j] == st.queue[j]
      {
        assert j !in front;
      }
    }
  }

  /** In the collision branch each listed node loses exactly its head frame and
      takes the draw at its position in the list. */
  lemma {:induction false} DropAllDropped(st: State, cand: seq<int>, draw: nat -> int)
    requires |st.queue| == |st.backoff|
    requires Increasing(cand)
    requires forall m :: 0 <= m < |cand| ==> 0 <= cand[m] < |st.queue| && st.queue[cand[m]] != []
    ensures var r := DropAll(st, cand, draw);
            forall m :: 0 <= m < |cand| ==>
              r.queue[cand[m]] == st.queue[cand[m]][1..] && r.backoff[cand[m]] == draw(st.draws + m)
    decreases |cand|
  {
    if cand != [] {
      var last := |cand| - 1;
      var front := cand[..last];
      DropAllDropped(st, front, draw);
      forall m | 0 <= m < |cand|
        ensures DropAll(st, cand, draw).queue[cand[m]] == st.queue[cand[m]][1..]
      {
        if m < last {
          assert front[m] == cand[m];
        }
      }
    }
  }

  /** The collision branch removes exactly one frame per listed node. */
  lemma {:induction false} DropAllLength(st: State, cand: seq<int>, draw: nat -> int)
    requires |st.queue| == |st.backoff|
    requires Increasing(cand)
    requires forall m :: 0 <= m < |cand| ==> 0 <= cand[m] < |st.queue| && st.queue[cand[m]] != []
    ensures TotalLength(DropAll(st, cand, draw).queue) + |cand| == TotalLength(st.queue)
    decreases |cand|
  {
    if cand != [] {
      var last := |cand| - 1;
      var i := cand[last];
      var front := cand[..last];
      DropAllLength(st, front, draw);
      assert i !in front;
      PopHeadLength(DropAll(st, front, draw).queue, i);
    }
  }

  /** Arbitration among the step's candidates. */
  function Arbitrate(cfg: Config, st: State, cand: seq<int>, draw: nat -> int): (r: State)
    requires Shaped(cfg, st) && Increasing(cand)
    requires forall m :: 0 <= m < |cand| ==> 0 <= cand[m] < cfg.numNodes && st.queue[cand[m]] != []
    ensures Shaped(cfg, r)
  {
    if |cand| > 1 then
      DropAll(st.(collisions := st.collisions + |cand|), cand, draw)
    else if |cand| == 1 then
      var i := cand[0];
      st.(transmitting := st.transmitting[i := cfg.frameDuration],
          successes := st.successes + 1,
          queue := st.queue[i := st.queue[i][1..]])
    else
      st
  }

  /** One time step: candidates are chosen on the state at the start of the
      step, backoffs count down, the candidates are arbitrated, and the
      transmission countdowns advance. */
  function Step(cfg: Config, st: State, t: int, draw: nat -> int): (r: State)
    requires Shaped(cfg, st)
    ensures Shaped(cfg, r)
    ensures CountersGrow(st, r)
  {
    var cand := Candidates(cfg, st, t);
    var mid := Arbitrate(cfg, st.(backoff := CountDown(st.backoff)), cand, draw);
    mid.(transmitting := CountDown(mid.transmitting))
  }

  /** The state after steps 0 .. steps-1. */
  function Run(cfg: Config, st: State, steps: nat, draw: nat -> int): (r: State)
    requires Shaped(cfg, st)
    ensures Shaped(cfg, r)
  {
    if steps == 0 then st else Step(cfg, Run(cfg, st, steps - 1, draw), steps - 1, draw)
  }

  // ---------------------------------------------------------------------
  // Properties of one step

  /** A node is a candidate exactly when its backoff is zero, its head frame
      has arrived, and no node within range of it is transmitting. */
  lemma CandidateRule(cfg: Config, init: seq<seq<int>>, st: State, t: int, i: int)
    requires Consistent(cfg, init, st) && 0 <= i < cfg.numNodes
    ensures i in Candidates(cfg, st, t) <==>
              && st.backoff[i] == 0
              && st.queue[i] != []
              && st.queue[i][0] <= t
              && forall v :: Visible(cfg, i, v) ==> st.transmitting[v] <= 0
  {
  }

  /** The sender-side sensing ignores the node's own countdown, so a node that
      is still transmitting can become a candidate again. */
  lemma OwnTransmissionIgnored(cfg: Config, st: State, t: int, i: int, x: int)
    requires Shaped(cfg, st) && 0 <= i < cfg.numNodes
    ensures IsCandidate(cfg, st, t, i) <==> IsCandidate(cfg, st.(transmitting := st.transmitting[i := x]), t, i)
  {
    var tr := st.transmitting;
    var tr' := tr[i := x];
    if SenderBusy(cfg, tr', i) {
      var v :| 0 <= v < cfg.numNodes && Visible(cfg, i, v) && tr'[v] > 0;
      assert tr[v] > 0;
    }
  }

  /** A node with backoff left only has that backoff lowered by one. */
  lemma BackoffStep(cfg: Config, st: State, t: int, draw: nat -> int, i: int)
    requires Shaped(cfg, st) && 0 <= i < cfg.numNodes && st.backoff[i] > 0
    ensures i !in Candidates(cfg, st, t)
    ensures Step(cfg, st, t, draw).backoff[i] == st.backoff[i] - 1
    ensures Step(cfg, st, t, draw).queue[i] == st.queue[i]
  {
    var cand := Candidates(cfg, st, t);
    if |cand| > 1 {
      var pre := st.(backoff := CountDown(st.backoff), collisions := st.collisions + |cand|);
      var mid := DropAll(pre, cand, draw);
      assert Step(cfg, st, t, draw).queue == mid.queue && Step(cfg, st, t, draw).backoff == mid.backoff;
      DropAllUntouched(pre, cand, draw);
    } else if |cand| == 1 {
      assert cand[0] in cand;
    }
  }

  /** A node whose queue is empty is no candidate, and its queue stays empty. */
  lemma EmptyQueueStep(cfg: Config, st: State, t: int, draw: nat -> int, i: int)
    requires Shaped(cfg, st) && 0 <= i < cfg.numNodes && st.queue[i] == []
    ensures i !in Candidates(cfg, st, t)
    ensures Step(cfg, st, t, draw).queue[i] == []
  {
    var cand := Candidates(cfg, st, t);
    if |cand| > 1 {
      var pre := st.(backoff := CountDown(st.backoff), collisions := st.collisions + |cand|);
      var mid := DropAll(pre, cand, draw);
      assert Step(cfg, st, t, draw).queue == mid.queue;
      DropAllUntouched(pre, cand, draw);
    } else if |cand| == 1 {
      assert cand[0] in cand;
    }
  }

  /** Once a node's queue is empty it is never a candidate again for the rest
      of the run. */
  lemma {:induction false} QueueExhausted(cfg: Config, st: State, early: nat, late: nat, draw: nat -> int, i: int)
    requires Shaped(cfg, st) && early <= late && 0 <= i < cfg.numNodes
    requires Run(cfg, st, early, draw).queue[i] == []
    ensures Run(cfg, st, late, draw).queue[i] == []
    ensures i !in Candidates(cfg, Run(cfg, st, late, draw), late)
    decreases late - early
  {
    EmptyQueueStep(cfg, Run(cfg, st, early, draw), early, draw, i);
    if early < late {
      QueueExhausted(cfg, st, early + 1, late, draw, i);
    }
  }

  /** With two or more candidates, every one of them collides: the collision
      counter grows by their number, each loses exactly its head frame and takes
      a backoff in [1, backoffMax], in list order from the draw stream; no one
      succeeds and no other queue changes. */
  lemma CollisionStep(cfg: Config, st: State, t: int, draw: nat -> int)
    requires Shaped(cfg, st) && ValidDraws(cfg, draw)
    requires |Candidates(cfg, st, t)| > 1
    ensures var cand := Candidates(cfg, st, t);
            var r := Step(cfg, st, t, draw);
            && r.collisions == st.collisions + |cand|
            && r.successes == st.successes
            && r.draws == st.draws + |cand|
            && (forall m :: 0 <= m < |cand| ==>
                  && r.queue[cand[m]] == st.queue[cand[m]][1..]
                  && r.backoff[cand[m]] == draw(st.draws + m)
                  && 1 <= r.backoff[cand[m]] <= cfg.backoffMax)
            && (forall j :: 0 <= j < cfg.numNodes && j !in cand ==> r.queue[j] == st.queue[j])
            && r.transmitting == CountDown(st.transmitting)
  {
    var cand := Candidates(cfg, st, t);
    var pre := st.(backoff := CountDown(st.backoff), collisions := st.collisions + |cand|);
    var mid := DropAll(pre, cand, draw);
    assert Step(cfg, st, t, draw) == mid.(transmitting := CountDown(mid.transmitting));
    DropAllUntouched(pre, cand, draw);
    DropAllDropped(pre, cand, draw);
  }

  /** With exactly one candidate, it sends: its head frame is popped, the
      success counter grows by one, its countdown is set to frameDuration and,
      after the end-of-step countdown, stands at frameDuration - 1 (or 0 for
      zero-length frames); no other queue changes. */
  lemma SuccessStep(cfg: Config, st: State, t: int, draw: nat -> int)
    requires Shaped(cfg, st)
    requires |Candidates(cfg, st, t)| == 1
    ensures var i := Candidates(cfg, st, t)[0];
            var r := Step(cfg, st, t, draw);
            && r.queue[i] == st.queue[i][1..]
            && r.successes == st.successes + 1
            && r.collisions == st.collisions
            && r.draws == st.draws
            && (cfg.frameDuration >= 1 ==> r.transmitting[i] == cfg.frameDuration - 1)
            && (cfg.frameDuration == 0 ==> r.transmitting[i] == 0)
            && (forall j :: 0 <= j < cfg.numNodes && j != i ==> r.queue[j] == st.queue[j])
  {
  }

  /** Without candidates no queue and no counter changes. */
  lemma IdleStep(cfg: Config, st: State, t: int, draw: nat -> int)
    requires Shaped(cfg, st)
    requires Candidates(cfg, st, t) == []
    ensures var r := Step(cfg, st, t, draw);
            r.queue == st.queue && r.successes == st.successes && r.collisions == st.collisions
  {
  }

  /** Arbitration keeps `Consistent`, whatever the (well-formed) candidate
      list. */
  lemma ArbitrateConsistent(cfg: Config, init: seq<seq<int>>, st: State, cand: seq<int>, draw: nat -> int)
    requires cfg.Valid() && ValidDraws(cfg, draw) && Consistent(cfg, init, st)
    requires Increasing(cand)
    requires forall m :: 0 <= m < |cand| ==> 0 <= cand[m] < cfg.numNodes && st.queue[cand[m]] != []
    ensures Consistent(cfg, init, Arbitrate(cfg, st, cand, draw))
  {
    if |cand| > 1 {
      CollisionConsistent(cfg, init, st, cand, draw);
    } else if |cand| == 1 {
      var i := cand[0];
      PopHeadLength(st.queue, i);
      PopHeadSuffix(st.queue[i], init[i]);
    }
  }

  lemma CollisionConsistent(cfg: Config, init: seq<seq<int>>, st: State, cand: seq<int>, draw: nat -> int)
    requires cfg.Valid() && ValidDraws(cfg, draw) && Consistent(cfg, init, st)
    requires Increasing(cand) && |cand| > 1
    requires forall m :: 0 <= m < |cand| ==> 0 <= cand[m] < cfg.numNodes && st.queue[cand[m]] != []
    ensures Consistent(cfg, init, Arbitrate(cfg, st, cand, draw))
  {
    var pre := st.(collisions := st.collisions + |cand|);
    var r := DropAll(pre, cand, draw);
    assert Arbitrate(cfg, st, cand, draw) == r;
    DropAllUntouched(pre, cand, draw);
    DropAllDropped(pre, cand, draw);
    DropAllLength(pre, cand, draw);
    forall j | 0 <= j < cfg.numNodes
      ensures IsSuffix(r.queue[j], init[j]) && 0 <= r.backoff[j] <= cfg.backoffMax
    {
      if j in cand {
        var m :| 0 <= m < |cand| && cand[m] == j;
        PopHeadSuffix(st.queue[j], init[j]);
      }
    }
  }

  /** A step keeps every reachable-state fact of `Consistent`. */
  lemma StepConsistent(cfg: Config, init: seq<seq<int>>, st: State, t: int, draw: nat -> int)
    requires cfg.Valid() && ValidDraws(cfg, draw) && Consistent(cfg, init, st)
    ensures Consistent(cfg, init, Step(cfg, st, t, draw))
  {
    var cand := Candidates(cfg, st, t);
    var st1 := st.(backoff := CountDown(st.backoff));
    assert Consistent(cfg, init, st1);
    var mid := Arbitrate(cfg, st1, cand, draw);
    ArbitrateConsistent(cfg, init, st1, cand, draw);
    assert Step(cfg, st, t, draw) == mid.(transmitting := CountDown(mid.transmitting));
  }

  /** Every state of a run satisfies `Consistent`. */
  lemma RunConsistent(cfg: Config, traffic: seq<seq<int>>, steps: nat, draw: nat -> int)
    requires cfg.Valid() && ValidDraws(cfg, draw) && |traffic| == cfg.numNodes
    ensures Consistent(cfg, traffic, Run(cfg, Initial(cfg, traffic), steps, draw))
  {
    InitialConsistent(cfg, traffic);
    RunKeepsConsistent(cfg, traffic, Initial(cfg, traffic), 0, steps, draw);
  }

  /** Once a state of a run satisfies `Consistent`, every later one does. */
  lemma {:induction false} RunKeepsConsistent(cfg: Config, init: seq<seq<int>>, st: State, early: nat, late: nat, draw: nat -> int)
    requires cfg.Valid() && ValidDraws(cfg, draw) && Shaped(cfg, st) && early <= late
    requires Consistent(cfg, init, Run(cfg, st, early, draw))
    ensures Consistent(cfg, init, Run(cfg, st, late, draw))
    decreases late - early
  {
    if early < late {
      StepConsistent(cfg, init, Run(cfg, st, early, draw), early, draw);
      RunKeepsConsistent(cfg, init, st, early + 1, late, draw);
    }
  }

  /** Over a run the counters only grow: from any step to any later one. */
  lemma {:induction false} RunCountersGrow(cfg: Config, st: State, early: nat, late: nat, draw: nat -> int)
    requires Shaped(cfg, st) && early <= late
    ensures CountersGrow(Run(cfg, st, early, draw), Run(cfg, st, late, draw))
    decreases late - early
  {
    if early < late {
      RunCountersGrow(cfg, st, early + 1, late, draw);
    }
  }

  // ---------------------------------------------------------------------
  // The engine, in place on the per-node arrays

  /** First phase of a step: nodes with backoff left count it down; the others
      whose head frame has arrived and who sense the medium idle are collected,
      in index order. */
  method CollectCandidates(cfg: Config, t: int, queue: array<seq<int>>, backoff: array<int>, transmitting: array<int>,
                           ghost st: State)
    returns (active: seq<int>)
    requires queue.Length == cfg.numNodes && backoff.Length == cfg.numNodes && transmitting.Length == cfg.numNodes
    requires backoff != transmitting
    requires queue[..] == st.queue && backoff[..] == st.backoff && transmitting[..] == st.transmitting
    modifies backoff
    ensures active == Candidates(cfg, st, t)
    ensures backoff[..] == CountDown(st.backoff)
  {
    active := [];
    for i := 0 to cfg.numNodes
      invariant forall j :: 0 <= j < i ==> backoff[j] == CountDown(st.backoff)[j]
      invariant forall j :: i <= j < cfg.numNodes ==> backoff[j] == st.backoff[j]
      invariant active == CandidatesBelow(cfg, st, t, i)
    {
      if backoff[i] > 0 {
        backoff[i] := backoff[i] - 1;
        continue;
      }
      if queue[i] != [] && queue[i][0] <= t {
        var busy := AnyTransmitting(VisibleNodes(cfg, i), transmitting[..]);
        AnyVisibleTransmitting(cfg, transmitting[..], i);
        if !busy {
          active := active + [i];
        }
      }
    }
    assert backoff[..] == CountDown(st.backoff);
  }

  /** Second phase of a step: several candidates all collide, a single one
      starts transmitting. */
  method Resolve(cfg: Config, active: seq<int>, draw: nat -> int,
                 queue: array<seq<int>>, backoff: array<int>, transmitting: array<int>,
                 successes: int, collisions: int, draws: nat)
    returns (successes': int, collisions': int, draws': nat)
    requires queue.Length == cfg.numNodes && backoff.Length == cfg.numNodes && transmitting.Length == cfg.numNodes
    requires backoff != transmitting
    requires Increasing(active)
    requires forall m :: 0 <= m < |active| ==> 0 <= active[m] < cfg.numNodes && queue[active[m]] != []
    modifies queue, backoff, transmitting
    ensures View(queue, backoff, transmitting, successes', collisions', draws') ==
            Arbitrate(cfg, old(View(queue, backoff, transmitting, successes, collisions, draws)), active, draw)
  {
    ghost var st := View(queue, backoff, transmitting, successes, collisions, draws);
    successes', collisions', draws' := successes, collisions, draws;
    if |active| > 1 {
      collisions' := collisions' + |active|;
      ghost var pre := st.(collisions := collisions');
      for k := 0 to |active|
        invariant View(queue, backoff, transmitting, successes', collisions', draws') == DropAll(pre, active[..k], draw)
      {
        var i := active[k];
        assert active[..k + 1][..k] == active[..k];
        assert i !in active[..k];
        backoff[i] := draw(draws');
        draws' := draws' + 1;
        queue[i] := queue[i][1..];
      }
      assert active[..|active|] == active;
    } else if |active| == 1 {
      var i := active[0];
      transmitting[i] := cfg.frameDuration;
      successes' := successes' + 1;
      queue[i] := queue[i][1..];
    }
  }

  /** Third phase of a step: every running transmission countdown advances. */
  method CountDownInPlace(a: array<int>)
    modifies a
    ensures a[..] == CountDown(old(a[..]))
  {
    for i := 0 to a.Length
      invariant forall j :: 0 <= j < i ==> a[j] == CountDown(old(a[..]))[j]
      invariant forall j :: i <= j < a.Length ==> a[j] == old(a[j])
    {
      if a[i] > 0 {
        a[i] := a[i] - 1;
      }
    }
    assert a[..] == CountDown(old(a[..]));
  }

  /** One step of the engine on the arrays: the three phases in order. */
  method StepInPlace(cfg: Config, t: int, draw: nat -> int,
                     queue: array<seq<int>>, backoff: array<int>, transmitting: array<int>,
                     successes: int, collisions: int, draws: nat)
    returns (successes': int, collisions': int, draws': nat)
    requires queue.Length == cfg.numNodes && backoff.Length == cfg.numNodes && transmitting.Length == cfg.numNodes
    requires backoff != transmitting
    modifies queue, backoff, transmitting
    ensures View(queue, backoff, transmitting, successes', collisions', draws') ==
            Step(cfg, old(View(queue, backoff, transmitting, successes, collisions, draws)), t, draw)
  {
    ghost var st := View(queue, backoff, transmitting, successes, collisions, draws);
    var active := CollectCandidates(cfg, t, queue, backoff, transmitting, st);
    assert View(queue, backoff, transmitting, successes, collisions, draws) == st.(backoff := CountDown(st.backoff));
    successes', collisions', draws' := Resolve(cfg, active, draw, queue, backoff, transmitting, successes, collisions, draws);
    CountDownInPlace(transmitting);
  }

  /** A whole run: the traffic is generated, then simTime steps are simulated.
      Returns the success and collision counts of the final state. */
  method Simulate(cfg: Config, arrives: (nat, nat) -> bool, draw: nat -> int)
    returns (successes: int, collisions: int)
    requires cfg.Valid() && ValidDraws(cfg, draw)
    ensures var final := Run(cfg, Initial(cfg, TrafficOf(cfg, arrives, cfg.simTime)), cfg.simTime, draw);
            successes == final.successes && collisions == final.collisions
    ensures 0 <= successes && 0 <= collisions
    ensures successes + collisions <= TotalArrivals(cfg, arrives)
    ensures (forall t: nat, i: nat :: !arrives(t, i)) ==> successes == 0 && collisions == 0
  {
    var n := cfg.numNodes;
    var traffic := GenerateTraffic(cfg, arrives, cfg.simTime);
    var queue := new seq<int>[n](i requires 0 <= i < n => traffic[i]);
    var backoff := new int[n](_ => 0);
    var transmitting := new int[n](_ => 0);
    var draws: nat := 0;
    successes, collisions := 0, 0;
    ghost var init := Initial(cfg, traffic);
    assert View(queue, backoff, transmitting, successes, collisions, draws) == init;
    for t := 0 to cfg.simTime
      invariant View(queue, backoff, transmitting, successes, collisions, draws) == Run(cfg, init, t, draw)
    {
      successes, collisions, draws := StepInPlace(cfg, t, draw, queue, backoff, transmitting, successes, collisions, draws);
    }
    RunConsistent(cfg, traffic, cfg.simTime, draw);
    Accounting(cfg, traffic, Run(cfg, init, cfg.simTime, draw));
    ghost var never := forall t: nat, i: nat :: !arrives(t, i);
    if never {
      NoArrivalsNoTraffic(cfg, arrives, cfg.simTime);
    }
  }
}

/** Single steps of both engines from concrete states of the program's own
    configuration: six nodes in a row, visibility range 1, frame duration 5,
    backoff bound 10. */
module Scenarios {
  import opened Params
  import opened Nodes
  import opened Visibility
  import Csma
  import Maca

  /** Frames waiting at t = 0 at nodes 0 and 2 only. Nodes 0 and 2 cannot hear
      each other; node 1 hears both. */
  const EitherSideOfOne: seq<seq<int>> := [[0], [], [0], [], [], []]

  /** Frames waiting at t = 0 at nodes 1 and 5 only. The two are far apart,
      but node 0, the receiver of node 5, hears node 1. */
  const OneAndFive: seq<seq<int>> := [[], [0], [], [], [], [0]]

  const Idle: seq<int> := [0, 0, 0, 0, 0, 0]

  /** The start of a run: queues as given, all countdowns and counters zero. */
  lemma InitialIsIdle(traffic: seq<seq<int>>)
    requires |traffic| == 6
    ensures Initial(Default, traffic) == State(traffic, Idle, Idle, 0, 0, 0)
  {
  }

  /** Which nodes are carrier-sensing candidates at t = 0 of a run. */
  lemma CsmaStartCandidates(traffic: seq<seq<int>>, i: int)
    requires |traffic| == 6 && 0 <= i < 6
    ensures Csma.IsCandidate(Default, Initial(Default, traffic), 0, i) <==> traffic[i] != [] && traffic[i][0] <= 0
  {
    InitialIsIdle(traffic);
    var st := Initial(Default, traffic);
    assert forall v :: 0 <= v < 6 ==> st.transmitting[v] == 0;
  }

  /** Under carrier sensing at the sender both nodes sense an idle medium,
      both become candidates, and the step counts two collisions: each frame
      is lost and each node backs off with the next two draws. */
  lemma CsmaHiddenPairCandidates()
    ensures Csma.Candidates(Default, Initial(Default, EitherSideOfOne), 0) == [0, 2]
  {
    var st := Initial(Default, EitherSideOfOne);
    CsmaStartCandidates(EitherSideOfOne, 0);
    CsmaStartCandidates(EitherSideOfOne, 1);
    CsmaStartCandidates(EitherSideOfOne, 2);
    CsmaStartCandidates(EitherSideOfOne, 3);
    CsmaStartCandidates(EitherSideOfOne, 4);
    CsmaStartCandidates(EitherSideOfOne, 5);
    assert Csma.CandidatesBelow(Default, st, 0, 1) == [0];
    assert Csma.CandidatesBelow(Default, st, 0, 2) == [0];
    assert Csma.CandidatesBelow(Default, st, 0, 3) == [0, 2];
    assert Csma.CandidatesBelow(Default, st, 0, 4) == [0, 2];
    assert Csma.CandidatesBelow(Default, st, 0, 5) == [0, 2];
  }

  lemma CsmaHiddenPairCollides(draw: nat -> int)
    requires ValidDraws(Default, draw)
    ensures var r := Csma.Step(Default, Initial(Default, EitherSideOfOne), 0, draw);
            && Csma.Candidates(Default, Initial(Default, EitherSideOfOne), 0) == [0, 2]
            && r.collisions == 2 && r.successes == 0
            && r.backoff[0] == draw(0) && r.backoff[2] == draw(1)
            && r.queue == [[], [], [], [], [], []]
  {
    var st := Initial(Default, EitherSideOfOne);
    CsmaHiddenPairCandidates();
    Csma.CollisionStep(Default, st, 0, draw);
    var r := Csma.Step(Default, st, 0, draw);
    var cand := [0, 2];
    assert r.queue[cand[0]] == [] && r.queue[cand[1]] == [];
    assert r.backoff[cand[0]] == draw(0) && r.backoff[cand[1]] == draw(1);
    forall j | 0 <= j < 6
      ensures r.queue[j] == []
    {
      if j != 0 && j != 2 {
        assert j !in cand;
      }
    }
  }

  /** Under the receiver check both attempts succeed in the same step: node 0
      sends to node 1, which hears only nodes 0 and 2, and node 2 sends to
      node 3, which hears only nodes 2 and 4. */
  lemma MacaHiddenPairBothSucceed(draw: nat -> int)
    ensures var r := Maca.Step(Default, Initial(Default, EitherSideOfOne), 0, draw);
            && r.successes == 2 && r.collisions == 0
            && r.transmitting == [5, 0, 5, 0, 0, 0]
            && r.queue == [[], [], [], [], [], []]
  {
    var st := Initial(Default, EitherSideOfOne);
    InitialIsIdle(EitherSideOfOne);
    var s1 := State([[], [], [0], [], [], []], Idle, [5, 0, 0, 0, 0, 0], 1, 0, 0);
    var s3 := State([[], [], [], [], [], []], Idle, [5, 0, 5, 0, 0, 0], 2, 0, 0);
    assert !Maca.Interfered(Default, st.transmitting, 0);
    assert Maca.Pass(Default, 0, st, 1, draw) == Maca.Turn(Default, 0, st, 0, draw);
    assert EitherSideOfOne[0][1..] == [];
    assert EitherSideOfOne[0 := []] == s1.queue;
    assert Idle[0 := 5] == s1.transmitting;
    assert Maca.Pass(Default, 0, st, 1, draw) == s1;
    assert Maca.Pass(Default, 0, st, 2, draw) == s1;
    assert !Maca.Interfered(Default, s1.transmitting, 2);
    assert Maca.Pass(Default, 0, st, 3, draw) == Maca.Turn(Default, 0, s1, 2, draw);
    assert s1.queue[2][1..] == [];
    assert s1.queue[2 := []] == s3.queue;
    assert s1.transmitting[2 := 5] == s3.transmitting;
    assert Maca.Pass(Default, 0, st, 3, draw) == s3;
    assert Maca.Pass(Default, 0, st, 4, draw) == s3;
    assert Maca.Pass(Default, 0, st, 5, draw) == s3;
    assert Maca.Pass(Default, 0, st, 6, draw) == s3;
  }

  /** Carrier sensing counts two collisions even for two senders far apart:
      any two candidates in one step collide. */
  lemma CsmaDistantPairCollides(draw: nat -> int)
    requires ValidDraws(Default, draw)
    ensures var r := Csma.Step(Default, Initial(Default, OneAndFive), 0, draw);
            r.collisions == 2 && r.successes == 0
  {
    var st := Initial(Default, OneAndFive);
    CsmaDistantPairCandidates();
    Csma.CollisionStep(Default, st, 0, draw);
  }

  lemma CsmaDistantPairCandidates()
    ensures Csma.Candidates(Default, Initial(Default, OneAndFive), 0) == [1, 5]
  {
    var st := Initial(Default, OneAndFive);
    CsmaStartCandidates(OneAndFive, 0);
    CsmaStartCandidates(OneAndFive, 1);
    CsmaStartCandidates(OneAndFive, 2);
    CsmaStartCandidates(OneAndFive, 3);
    CsmaStartCandidates(OneAndFive, 4);
    CsmaStartCandidates(OneAndFive, 5);
    assert Csma.CandidatesBelow(Default, st, 0, 1) == [];
    assert Csma.CandidatesBelow(Default, st, 0, 2) == [1];
    assert Csma.CandidatesBelow(Default, st, 0, 3) == [1];
    assert Csma.CandidatesBelow(Default, st, 0, 4) == [1];
    assert Csma.CandidatesBelow(Default, st, 0, 5) == [1];
  }

  /** Turn order matters under the receiver check: node 1 starts sending in
      its turn, and node 5, whose receiver 0 hears node 1, sees that in its
      own turn of the same step and defers with the first backoff draw. */
  lemma MacaLaterTurnSeesEarlierStart(draw: nat -> int)
    ensures var r := Maca.Step(Default, Initial(Default, OneAndFive), 0, draw);
            && r.successes == 1 && r.collisions == 1
            && r.transmitting[1] == 5 && r.backoff[5] == draw(0)
            && r.queue == [[], [], [], [], [], []]
  {
    var st := Initial(Default, OneAndFive);
    InitialIsIdle(OneAndFive);
    var s2 := State([[], [], [], [], [], [0]], Idle, [0, 5, 0, 0, 0, 0], 1, 0, 0);
    assert !Maca.Interfered(Default, st.transmitting, 1);
    assert Maca.Pass(Default, 0, st, 1, draw) == st;
    assert Maca.Pass(Default, 0, st, 2, draw) == Maca.Turn(Default, 0, st, 1, draw);
    assert OneAndFive[1][1..] == [];
    assert OneAndFive[1 := []] == s2.queue;
    assert Idle[1 := 5] == s2.transmitting;
    assert Maca.Pass(Default, 0, st, 2, draw) == s2;
    assert Maca.Pass(Default, 0, st, 5, draw) == s2;
    assert Visible(Default, Maca.Receiver(Default, 5), 1) && s2.transmitting[1] > 0;
    var s6 := State([[], [], [], [], [], []], [0, 0, 0, 0, 0, draw(0)], [0, 5, 0, 0, 0, 0], 1, 1, 1);
    assert Maca.Interfered(Default, s2.transmitting, 5);
    assert Maca.Pass(Default, 0, st, 6, draw) == Maca.Turn(Default, 0, s2, 5, draw);
    assert s2.queue[5][1..] == [];
    assert s2.queue[5 := []] == s6.queue;
    assert Idle[5 := draw(0)] == s6.backoff;
    assert Maca.Pass(Default, 0, st, 6, draw) == s6;
  }
}

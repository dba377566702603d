# CSMA versus MACA on a line of nodes — a Dafny model

The program compares two medium-access rules on `NUM_NODES` nodes placed on a
line, where two nodes hear each other when their indices differ by at most
`VISIBILITY_RANGE`. Frames arrive at random steps and wait in per-node queues;
every step, each engine decides who transmits.

* **CSMA** (carrier sensing at the sender): a node with no backoff left, whose
  head frame has arrived and which hears no neighbour transmitting, becomes a
  candidate. Two or more candidates all collide (each loses its frame and backs
  off); a single candidate starts a transmission of `FRAME_DURATION` steps.
  Then every running transmission countdown advances. Sensing looks at the
  neighbours only, never at the node's own countdown.
* **MACA** (a receiver-side check standing for RTS/CTS): nodes take turns in
  index order. A node with frame time left counts it down; otherwise one with
  backoff left counts that down; otherwise a node whose head frame has arrived
  sends to node `(i + 1) mod NUM_NODES`, and succeeds exactly when no node the
  receiver hears, other than the sender, is transmitting — as the countdowns
  stand after the turns of lower-numbered nodes in the same step. A failed
  attempt consumes the frame, counts a collision and takes a backoff.

The project is split as the program is:

| file | contents |
|---|---|
| `params.dfy` | the constants as a `Config` value (`Default` holds the program's values) and the backoff-draw stream |
| `nodes.dfy` | the per-run state (queues, countdowns, counters), the run invariant `Consistent`, frame accounting |
| `visibility.dfy` | the visibility query and its exact meaning |
| `traffic.dfy` | the traffic builder, as a loop proved equal to a specification function |
| `csma.dfy` | the CSMA step as functions (`Candidates`, `Arbitrate`, `Step`, `Run`), its properties, and the same step on arrays (`CollectCandidates`, `Resolve`, `CountDownInPlace`, `StepInPlace`, `Simulate`) |
| `maca.dfy` | the MACA turn, step and run as functions, their properties, and the step on arrays (`StepInPlace`, `Simulate`) |
| `scenarios.dfy` | single steps of both engines from concrete starts with the program's constants |

Randomness is injected. The arrival test of step `t` at node `i` is the
parameter `arrives(t, i)`; the k-th backoff value a run takes is `draw(k)`,
required to lie in `[1, BACKOFF_MAX]`. Each engine's state carries the number
of draws taken so far, and every collision takes exactly one draw. The engines
on arrays are proved to compute exactly the specification functions
(`StepInPlace` equals `Step`, `Simulate` returns the counters of `Run`), and
the properties are proved about those functions.

The source's `csma_sim` and `maca_sim` return the success count only
(main.py:61, main.py:90). The models' `Simulate` methods return both the
success and the collision count.

## Model

| member | source | states |
|---|---|---|
| Visibility.VisibleNodes | main.py:20-22 | every listed index is a node index |
| Visibility.VisibleNodesMeans | main.py:20-22 | `j` is listed exactly when `0 <= j < NUM_NODES`, `j != index` and `abs(j - index) <= VISIBILITY_RANGE`; the list is strictly increasing, so it has no duplicates |
| Visibility.VisibilitySymmetric | main.py:20-22 | `j` is visible from `i` exactly when `i` is visible from `j` |
| Visibility.NotSelfVisible | main.py:22 | a node is never in its own visibility list |
| Traffic.Arrivals | main.py:14-17 | one node's list is strictly increasing, lies in `[0, steps)`, holds exactly the steps whose arrival test fires, and has at most one entry per step |
| Traffic.GenerateTraffic | main.py:12-18 | the nested step/node loop appending to per-node lists yields exactly `TrafficOf`, one arrival list per node |
| Traffic.TrafficOf | main.py:12-18 | one list per node, each strictly increasing and holding exactly the steps before the horizon whose arrival test fires for that node |
| Traffic.TrafficSorted | main.py:12-18 | there is one list per node, each strictly increasing with values in `[0, sim_time)` |
| Traffic.NoArrivalsNoTraffic | main.py:16 | when the arrival test never fires (rate 0) no frame is generated |
| Nodes.Initial | main.py:25-30 | the queues are the traffic; there is one backoff and one countdown per node, all zero; both counters and the draw position are zero |
| Nodes.PopHeadLength | main.py:50 | popping one queue's head removes exactly one frame from the total |
| Nodes.PopHeadSuffix | main.py:50 | a popped queue is still what is left of the queue it started as |
| Nodes.InitialConsistent | main.py:25-30 | the start of a run (queues = traffic, countdowns and counters zero) satisfies the run invariant |
| Nodes.Accounting | main.py:29-30 | in any state satisfying the run invariant both counters are non-negative, successes plus collisions is at most the number of frames generated, and both are zero when no frame was generated |
| Csma.AnyTransmitting | main.py:42 | the scan of a list of node indices finds a running countdown exactly when some listed node has a positive countdown |
| Csma.AnyVisibleTransmitting | main.py:41-42 | scanning the visibility list decides exactly whether some neighbour of `i` is transmitting |
| Csma.SenderBusy | main.py:41-42 | the sender senses the medium busy only because of another node's countdown, never its own |
| Csma.IsCandidate | main.py:36-44 | a candidate hears no neighbour with frame time left |
| Csma.CandidatesBelow | main.py:35-44 | the scan over nodes `0 .. k-1` lists, in increasing order, exactly the nodes that qualify |
| Csma.Candidates | main.py:35-44 | the step's candidate list holds each qualifying node once, in index order, and nothing else |
| Csma.DropAll | main.py:48-50 | the collision loop keeps the number of queues and of backoff entries, the countdowns and the counters, takes one draw per listed node, and leaves queues above the listed nodes alone |
| Csma.DropAllUntouched | main.py:48-50 | in the collision loop an unlisted node keeps its queue and its backoff |
| Csma.DropAllDropped | main.py:48-50 | in the collision loop the m-th listed node loses exactly its head frame and takes draw number `draws + m` |
| Csma.DropAllLength | main.py:48-50 | the collision loop removes exactly one frame per listed node |
| Csma.CountDown | main.py:57-59 | one entry per node; every positive countdown drops by exactly one and every other entry stays |
| Csma.Arbitrate | main.py:46-55 | arbitration keeps the number of nodes |
| Csma.Step | main.py:33-59 | a step keeps the number of nodes and never lowers either counter |
| Csma.Run | main.py:32-59 | a run keeps the number of nodes |
| Csma.CandidateRule | main.py:35-44 | in a reachable state, `i` is a candidate exactly when its backoff is 0, its queue is non-empty with head `<= t`, and no visible node has `transmitting > 0` |
| Csma.OwnTransmissionIgnored | main.py:41-44 | whether `i` is a candidate does not depend on its own `transmitting` value, so a node still transmitting can become a candidate again |
| Csma.BackoffStep | main.py:36-38 | a node with backoff left is no candidate, has that backoff lowered by exactly one and keeps its queue |
| Csma.EmptyQueueStep | main.py:40 | a node with an empty queue is no candidate and its queue stays empty |
| Csma.QueueExhausted | main.py:40 | once a node's queue is empty it stays empty and the node is never a candidate again for the rest of the run |
| Csma.CollisionStep | main.py:46-50 | with two or more candidates collisions grow by their number, successes stay, each candidate loses exactly its head frame and gets a backoff in `[1, BACKOFF_MAX]` (the next draws, in list order), other queues are unchanged, and transmission countdowns only advance |
| Csma.SuccessStep | main.py:51-59 | with one candidate its head frame is popped, successes grow by one, collisions and draws stay, its countdown ends the step at `FRAME_DURATION - 1` (at 0 when `FRAME_DURATION` is 0), and no other queue changes |
| Csma.IdleStep | main.py:46-55 | without candidates no queue and no counter changes |
| Csma.ArbitrateConsistent | main.py:46-55 | arbitration keeps the run invariant |
| Csma.CollisionConsistent | main.py:46-50 | the collision branch keeps the run invariant |
| Csma.StepConsistent | main.py:33-59 | a step keeps the run invariant: countdowns within `[0, BACKOFF_MAX]` and `[0, FRAME_DURATION]`, queues only lose heads, one draw per collision, every removed frame counted once |
| Csma.RunConsistent | main.py:24-61 | every state of a run from the generated traffic satisfies the run invariant |
| Csma.RunKeepsConsistent | main.py:32-59 | once a state of a run satisfies the run invariant, every later state does |
| Csma.RunCountersGrow | main.py:46-55 | successes and collisions never decrease between any two steps of a run |
| Csma.CollectCandidates | main.py:33-44 | the first loop lowers each positive backoff by one and returns exactly `Candidates` of the state at the start of the step |
| Csma.Resolve | main.py:46-55 | the arbitration code on the arrays yields exactly `Arbitrate` |
| Csma.CountDownInPlace | main.py:57-59 | the last loop lowers every positive countdown by one and leaves the rest |
| Csma.StepInPlace | main.py:33-59 | one step on the arrays yields exactly `Step` of the state before it |
| Csma.Simulate | main.py:24-61 | returns the counters of `Run` over the generated traffic; both non-negative, their sum at most the frames generated, both zero when the arrival test never fires |
| Maca.Receiver | main.py:80 | the receiver is a node index: the next node, or node 0 after the last one |
| Maca.Interferers | main.py:81 | the interferer list is no longer than the visibility list |
| Maca.InterferersMeans | main.py:81 | a node is an interferer exactly when it is listed, is not the sender and has `transmitting > 0` |
| Maca.ReceiverInterferers | main.py:80-82 | the list built from the receiver's visibility holds exactly the nodes the receiver hears, other than the sender, that are transmitting; it is empty exactly when the attempt is not interfered |
| Maca.Interfered | main.py:81-82 | an attempt can only be interfered by a transmitting node other than both the sender and the receiver |
| Maca.Turn | main.py:72-89 | a turn keeps the number of nodes and never lowers either counter |
| Maca.Pass | main.py:72-89 | the turns of nodes `0 .. k-1` keep the number of nodes and never lower either counter |
| Maca.Step | main.py:72-89 | a step keeps the number of nodes and never lowers either counter |
| Maca.Run | main.py:71-89 | a run keeps the number of nodes |
| Maca.TurnLocal | main.py:72-89 | a node's turn changes no other node's queue, backoff or countdown |
| Maca.Attempts | main.py:73-79 | an attempting node's turn pops exactly its head frame, whatever the draw; a node with no countdown left that does not attempt keeps its queue |
| Maca.TurnCases | main.py:73-79 | a turn with frame time left only lowers it by one; otherwise with backoff left it only lowers that by one; otherwise a node not attempting changes nothing |
| Maca.AttemptOutcome | main.py:79-89 | an attempt pops exactly the head frame and adds one to exactly one counter: to successes exactly when no node the receiver hears other than the sender is transmitting, then the countdown is `FRAME_DURATION`; otherwise to collisions, with the next draw, in `[1, BACKOFF_MAX]`, as backoff |
| Maca.OwnAndReceiverIgnored | main.py:81 | the outcome of an attempt depends neither on the sender's nor on the receiver's own countdown |
| Maca.TurnConsistent | main.py:72-89 | a turn keeps the run invariant |
| Maca.PassUntouched | main.py:72 | the turns of nodes `0 .. k-1` leave the rows of nodes `k ..` as at the start of the step |
| Maca.PassSettled | main.py:72 | after node `j`'s turn the later turns of the step leave its row alone |
| Maca.StepOrder | main.py:71-89 | node `i`'s row after a step is what its turn made of the state left by nodes `0 .. i-1`: its own row and the rows of higher nodes as at the start of the step, the rows of lower nodes already updated |
| Maca.PassKeepsEmpty | main.py:79 | a node whose queue is empty at the start of a step still has an empty queue after every turn of it |
| Maca.QueueExhausted | main.py:79 | once a node's queue is empty it stays empty and the node never attempts again for the rest of the run |
| Maca.PassConsistent | main.py:72-89 | the turns of a step keep the run invariant |
| Maca.RunConsistent | main.py:63-90 | every state of a run from the generated traffic satisfies the run invariant, so successes plus collisions equals the frames removed |
| Maca.RunKeepsConsistent | main.py:71-89 | once a state of a run satisfies the run invariant, every later state does |
| Maca.RunCountersGrow | main.py:82-89 | successes and collisions never decrease between any two steps of a run |
| Maca.StepInPlace | main.py:72-89 | one step on the arrays, turns in index order, yields exactly `Step` of the state before it |
| Maca.Simulate | main.py:63-90 | returns the counters of `Run` over the generated traffic; both non-negative, their sum at most the frames generated, both zero when the arrival test never fires |
| Scenarios.InitialIsIdle | main.py:26-30 | a run starts with all countdowns and counters at zero |
| Scenarios.CsmaStartCandidates | main.py:40-44 | at step 0 of a run a node is a CSMA candidate exactly when a frame has arrived for it |
| Scenarios.CsmaHiddenPairCandidates | main.py:35-44 | with frames at nodes 0 and 2 at step 0, both are CSMA candidates although node 1 hears both |
| Scenarios.CsmaHiddenPairCollides | main.py:46-50 | that step counts two collisions and no success, both frames are lost and nodes 0 and 2 take the first two draws |
| Scenarios.MacaHiddenPairBothSucceed | main.py:79-85 | the same start under MACA gives two successes in one step: node 0 sends to 1, node 2 sends to 3 |
| Scenarios.CsmaDistantPairCandidates | main.py:35-44 | with frames at nodes 1 and 5 at step 0, both are CSMA candidates |
| Scenarios.CsmaDistantPairCollides | main.py:46-47 | two candidates far apart still count two collisions |
| Scenarios.MacaLaterTurnSeesEarlierStart | main.py:79-89 | under MACA node 1 succeeds, and node 5, whose receiver 0 hears node 1, sees that transmission in its own later turn of the same step and defers with the first draw |

## Left out

- Plotting of the results (main.py:96-105): output only, no logic.
- The sweep over arrival rates (main.py:92-94): driver code over floating-point rates; a run is modelled for one fixed arrival oracle.
- Seeding and the random number generator (main.py:10, 16, 49, 87): the arrival test becomes the parameter `arrives(t, i)` and the backoff draws the stream `draw`. That the program takes both from one shared generator, so that a run's draws depend on the traffic drawn before them, is not modelled; every property holds for any arrival oracle and any draw stream in `[1, BACKOFF_MAX]`.
- Configuration checks: the program has none. `Config.Valid` asks only for `BACKOFF_MAX >= 1`, since with a smaller bound no backoff value lies in `[1, BACKOFF_MAX]` and the program's draw fails at the first collision. Every other constant may be any natural number, zero nodes and zero-length frames included.
- Csma.Simulate, Maca.Simulate: return the collision count as well, whereas the program's engines return the success count only.
- The run loops of `csma_sim` and `maca_sim` copy the traffic into fresh lists (main.py:26, 65); the models copy it into a fresh array of queues, and per-queue list objects and their aliasing are not modelled.
- The usual hidden-node illustration has nodes 0 and 2 both sending to node 1 under MACA. The program's receiver is always the next node, so node 2 sends to node 3 and both succeed (Scenarios.MacaHiddenPairBothSucceed); the model follows the program.

/** Which node indices lie within interference range of a given index. */
module Visibility {
  import opened Params
  import opened Nodes

  /** Index distance |a - b|. */
  function Dist(a: int, b: int): nat
  {
    if a >= b then a - b else b - a
  }

  /** `j` is a node other than `index` within the visibility range of it. */
  predicate Visible(cfg: Config, index: int, j: int)
  {
    0 <= j < cfg.numNodes && j != index && Dist(j, index) <= cfg.visibilityRange
  }

  /** The nodes among 0 .. k-1 visible from `index`, in increasing order. */
  function VisibleBelow(cfg: Config, index: int, k: nat): (r: seq<int>)
    requires k <= cfg.numNodes
    ensures forall m :: 0 <= m < |r| ==> 0 <= r[m] < k
  {
    if k == 0 then []
    else
      var j := k - 1;
      VisibleBelow(cfg, index, j) + (if j != index && Dist(j, index) <= cfg.visibilityRange then [j] else [])
  }

  lemma {:induction false} VisibleBelowMeans(cfg: Config, index: int, k: nat)
    requires k <= cfg.numNodes
    ensures forall j :: j in VisibleBelow(cfg, index, k) <==> j < k && Visible(cfg, index, j)
    ensures Increasing(VisibleBelow(cfg, index, k))
  {
    if k > 0 {
      VisibleBelowMeans(cfg, index, k - 1);
    }
  }

  /** Every node index within range of `index` other than `index` itself,
      listed in increasing order; all of them are node indices. */
  function VisibleNodes(cfg: Config, index: int): (r: seq<int>)
    ensures forall m :: 0 <= m < |r| ==> 0 <= r[m] < cfg.numNodes
  {
    VisibleBelow(cfg, index, cfg.numNodes)
  }

  /** The query lists exactly the visible nodes, once each, in increasing
      order. */
  lemma VisibleNodesMeans(cfg: Config, index: int)
    ensures forall j :: j in VisibleNodes(cfg, index) <==> Visible(cfg, index, j)
    ensures Increasing(VisibleNodes(cfg, index))
  {
    VisibleBelowMeans(cfg, index, cfg.numNodes);
  }

  /** Visibility between two nodes is mutual. */
  lemma VisibilitySymmetric(cfg: Config, i: int, j: int)
    requires 0 <= i < cfg.numNodes && 0 <= j < cfg.numNodes
    ensures j in VisibleNodes(cfg, i) <==> i in VisibleNodes(cfg, j)
  {
    VisibleNodesMeans(cfg, i);
    VisibleNodesMeans(cfg, j);
  }

  /** A node never sees itself. */
  lemma NotSelfVisible(cfg: Config, i: int)
    ensures i !in VisibleNodes(cfg, i)
  {
    VisibleNodesMeans(cfg, i);
  }
}

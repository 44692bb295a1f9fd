/** Run lineage: the edges between consecutive runs of a chain. */
module Lineage {
  function Edges(ids: seq<int>): (e: seq<(int, int)>)
    ensures |e| == if |ids| == 0 then 0 else |ids| - 1
  {
    if |ids| == 0 then [] else seq(|ids| - 1, k requires 0 <= k < |ids| - 1 => (ids[k], ids[k + 1]))
  }

  lemma EdgesSnoc(ids: seq<int>, id: int)
    ensures Edges(ids + [id]) == if ids == [] then [] else Edges(ids) + [(ids[|ids| - 1], id)]
  {
  }
}

/** The hybrid retriever: recall legs, fusion, collapse, quota, rerank, expansion. The vector store,
    the keyword index, the graph and the cross-encoder are arbitrary; everything after them is proved.
  */
module Hybrid {
  import opened Common
  import opened Hits
  import Diversity
  import Expand
  import Fusion

  datatype Config = Config(
    rrfK: int,
    prefusionTopN: int,
    maxChunksPerDocument: int,
    quotaOverflowTopN: int,
    allowVectorFallback: bool)

  /** The optional graph leg: how many seeds it takes and what it answers under a cap. */
  datatype GraphLeg = GraphLeg(seedTopN: int, expand: (seq<string>, int) -> seq<Hit>)

  // ----- the cross-encoder stage -----

  datatype Scored = Scored(hit: Hit, score: real)

  predicate ScoredLeq(a: Scored, b: Scored) {
    a.score >= b.score
  }

  function ScoreAll(hits: seq<Hit>, scorer: Hit -> real): (r: seq<Scored>)
    ensures |r| == |hits|
  {
    seq(|hits|, i requires 0 <= i < |hits| => Scored(hits[i], scorer(hits[i])))
  }

  function Rescored(s: Scored): (h: Hit)
    ensures SameChunk(h, s.hit)
  {
    s.hit.(score := s.score, payload := s.hit.payload["rerank_score" := Score(s.score)])
  }

  function Reranked(hits: seq<Hit>, scorer: Hit -> real): (r: seq<Hit>)
    ensures |r| == |Sorted(ScoreAll(hits, scorer), ScoredLeq)|
  {
    var ordered := Sorted(ScoreAll(hits, scorer), ScoredLeq);
    seq(|ordered|, i requires 0 <= i < |ordered| => Rescored(ordered[i]))
  }

  method Rerank(hits: seq<Hit>, scorer: Hit -> real) returns (r: seq<Hit>)
    ensures r == Reranked(hits, scorer)
  {
    if hits == [] {
      return [];
    }
    var indexed := Sorted(ScoreAll(hits, scorer), ScoredLeq);
    r := [];
    for i := 0 to |indexed|
      invariant |r| == i && forall j :: 0 <= j < i ==> r[j] == Rescored(indexed[j])
    {
      r := r + [Rescored(indexed[i])];
    }
  }

  /** Reranking rearranges: same clauses, same number, best score first. */
  lemma RerankedRearranges(hits: seq<Hit>, scorer: Hit -> real)
    requires NoDuplicates(ClauseKeys(hits))
    ensures |Reranked(hits, scorer)| == |hits|
    ensures NoDuplicates(ClauseKeys(Reranked(hits, scorer)))
    ensures forall key :: key in ClauseKeys(Reranked(hits, scorer)) ==> key in ClauseKeys(hits)
    ensures forall i, j :: 0 <= i < j < |hits| ==> Reranked(hits, scorer)[i].score >= Reranked(hits, scorer)[j].score
  {
    var pairs := ScoreAll(hits, scorer);
    var ordered := Sorted(pairs, ScoredLeq);
    assert TotalOrder(ScoredLeq);
    SortedIsPermutation(pairs, ScoredLeq);
    SameMultisetSameElements(ordered, pairs);
    forall i, j | 0 <= i < j < |pairs| ensures pairs[i] != pairs[j] {
      assert ClauseKeys(hits)[i] != ClauseKeys(hits)[j];
    }
    SameMultisetNoDuplicates(pairs, ordered);
    forall i, j | 0 <= i < j < |ordered| ensures ClauseKey(ordered[i].hit) != ClauseKey(ordered[j].hit) {
      assert ordered[i] in pairs && ordered[j] in pairs;
      var p :| 0 <= p < |pairs| && pairs[p] == ordered[i];
      var q :| 0 <= q < |pairs| && pairs[q] == ordered[j];
      assert p != q && ClauseKeys(hits)[p] != ClauseKeys(hits)[q];
    }
    var r := Reranked(hits, scorer);
    forall i | 0 <= i < |r| ensures ClauseKey(r[i]) in ClauseKeys(hits) {
      assert ordered[i] in pairs;
      var p :| 0 <= p < |pairs| && pairs[p] == ordered[i];
      assert ClauseKeys(hits)[p] == ClauseKey(r[i]);
    }
    assert forall i :: 0 <= i < |r| ==> ClauseKeys(r)[i] == ClauseKey(r[i]);
    assert forall i, j :: 0 <= i < j < |r| ==> ScoredLeq(ordered[i], ordered[j]);
  }

  // ----- the composed result -----

  function ExpandAll(hits: seq<Hit>): (r: seq<Hit>)
    ensures |r| == |hits| && ClauseKeys(r) == ClauseKeys(hits)
  {
    seq(|hits|, i requires 0 <= i < |hits| => Diversity.ExpandHit(hits[i]))
  }

  function FlagHit(h: Hit): (r: Hit)
    ensures SameChunk(h, r) && Flagged(r)
  {
    h.(payload := h.payload[QUOTA_OVERFLOW_KEY := Flag(true)])
  }

  function FlagAll(hits: seq<Hit>): (r: seq<Hit>)
    ensures |r| == |hits| && ClauseKeys(r) == ClauseKeys(hits)
  {
    seq(|hits|, i requires 0 <= i < |hits| => FlagHit(hits[i]))
  }

  /** The collapsed candidates of the legs, in fused order. */
  function Candidates(legs: seq<seq<Hit>>, k: nat): (r: seq<Hit>)
    requires k >= 1
    ensures NoDuplicates(ClauseKeys(r))
  {
    Diversity.Collapsed(Fusion.FusedHits(Fusion.Items(legs), k))
  }

  function PoolLimit(cfg: Config, topK: int): int {
    Max(cfg.prefusionTopN, topK)
  }

  predicate Workable(cfg: Config, topK: int) {
    cfg.rrfK >= 1 && cfg.maxChunksPerDocument >= 1 && cfg.quotaOverflowTopN >= 0 && PoolLimit(cfg, topK) >= 1
  }

  function PoolPositions(all: seq<Hit>, cfg: Config, topK: int): (r: seq<nat>)
    requires Workable(cfg, topK)
    ensures forall i :: 0 <= i < |r| ==> r[i] < |all|
  {
    Diversity.Pool(SourceKeys(all), cfg.maxChunksPerDocument, PoolLimit(cfg, topK))
  }

  function OverflowPositions(all: seq<Hit>, cfg: Config, topK: int): (r: seq<nat>)
    requires Workable(cfg, topK)
    ensures forall i :: 0 <= i < |r| ==> r[i] < |all|
  {
    Diversity.Overflow(SourceKeys(all), cfg.maxChunksPerDocument, PoolLimit(cfg, topK), cfg.quotaOverflowTopN)
  }

  function Primary(all: seq<Hit>, cfg: Config, topK: int, scorer: Hit -> real): seq<Hit>
    requires Workable(cfg, topK)
  {
    SliceTo(ExpandAll(Reranked(Diversity.At(all, PoolPositions(all, cfg, topK)), scorer)), Max(topK, 1))
  }

  function Supplementary(all: seq<Hit>, cfg: Config, topK: int): seq<Hit>
    requires Workable(cfg, topK)
  {
    FlagAll(ExpandAll(Diversity.At(all, OverflowPositions(all, cfg, topK))))
  }

  lemma DistinctPositionsDistinctKeys(hits: seq<Hit>, positions: seq<nat>)
    requires NoDuplicates(ClauseKeys(hits)) && NoDuplicates(positions)
    requires forall i :: 0 <= i < |positions| ==> positions[i] < |hits|
    ensures NoDuplicates(ClauseKeys(Diversity.At(hits, positions)))
  {
    var picked := Diversity.At(hits, positions);
    forall i, j | 0 <= i < j < |picked| ensures ClauseKeys(picked)[i] != ClauseKeys(picked)[j] {
      assert ClauseKeys(picked)[i] == ClauseKeys(hits)[positions[i]];
      assert ClauseKeys(picked)[j] == ClauseKeys(hits)[positions[j]];
    }
  }

  lemma ReplaceFront(front: seq<string>, back: seq<string>, other: seq<string>)
    requires NoDuplicates(front + back) && NoDuplicates(other)
    requires forall i :: 0 <= i < |other| ==> other[i] in front
    ensures NoDuplicates(other + back)
  {
    var keys, both := other + back, front + back;
    forall i, j | 0 <= i < j < |keys| ensures keys[i] != keys[j] {
      if i < |other| <= j {
        var p :| 0 <= p < |front| && front[p] == other[i];
        assert both[p] == keys[i] && both[|front| + j - |other|] == keys[j];
      } else if |other| <= i {
        assert both[|front| + i - |other|] == keys[i] && both[|front| + j - |other|] == keys[j];
      }
    }
  }

  lemma PoolAndOverflowClauses(all: seq<Hit>, cfg: Config, topK: int)
    requires Workable(cfg, topK) && NoDuplicates(ClauseKeys(all))
    ensures NoDuplicates(ClauseKeys(Diversity.At(all, PoolPositions(all, cfg, topK)))
                       + ClauseKeys(Diversity.At(all, OverflowPositions(all, cfg, topK))))
  {
    var inPool, inOverflow := PoolPositions(all, cfg, topK), OverflowPositions(all, cfg, topK);
    Diversity.PoolAndOverflowDistinct(
      SourceKeys(all), cfg.maxChunksPerDocument, PoolLimit(cfg, topK), cfg.quotaOverflowTopN);
    DistinctPositionsDistinctKeys(all, inPool + inOverflow);
    assert ClauseKeys(Diversity.At(all, inPool + inOverflow))
        == ClauseKeys(Diversity.At(all, inPool)) + ClauseKeys(Diversity.At(all, inOverflow));
  }

  // ----- what counts as recalled -----

  predicate ClauseRecalled(items: seq<Fusion.Item>, key: string) {
    exists i :: 0 <= i < |items| && ClauseKey(items[i].hit) == key
  }

  /** Legs agree on which clause a chunk id belongs to. */
  ghost predicate LegsAgree(items: seq<Fusion.Item>) {
    forall i, j :: 0 <= i < |items| && 0 <= j < |items| && items[i].hit.id == items[j].hit.id ==>
      ClauseKey(items[i].hit) == ClauseKey(items[j].hit)
  }

  lemma {:induction false} RepresentativeIsRecalled(items: seq<Fusion.Item>, id: string)
    requires id in Fusion.ItemIds(items)
    ensures exists i :: 0 <= i < |items| && items[i].hit == Fusion.Representative(items, id)
  {
    var init := items[..|items| - 1];
    if id in Fusion.ItemIds(init) {
      RepresentativeIsRecalled(init, id);
      var i :| 0 <= i < |init| && init[i].hit == Fusion.Representative(init, id);
      assert items[i].hit == Fusion.Representative(items, id);
    } else {
      assert items[|items| - 1].hit == Fusion.Representative(items, id);
    }
  }

  function RecalledClauses(items: seq<Fusion.Item>): set<string> {
    set i | 0 <= i < |items| :: ClauseKey(items[i].hit)
  }

  /** The clauses the recalled ids belong to, by each id's first copy. */
  function RepresentedClauses(items: seq<Fusion.Item>): set<string> {
    set id | id in Fusion.ItemIds(items) :: ClauseKey(Fusion.Representative(items, id))
  }

  /** The two differ only when a leg gives an id another clause than the leg that named it first. */
  lemma RepresentedAreRecalled(items: seq<Fusion.Item>)
    ensures RepresentedClauses(items) <= RecalledClauses(items)
    ensures LegsAgree(items) ==> RepresentedClauses(items) == RecalledClauses(items)
  {
    forall key | key in RepresentedClauses(items) ensures key in RecalledClauses(items) {
      var id :| id in Fusion.ItemIds(items) && key == ClauseKey(Fusion.Representative(items, id));
      RepresentativeIsRecalled(items, id);
    }
    if LegsAgree(items) {
      forall key | key in RecalledClauses(items) ensures key in RepresentedClauses(items) {
        var i :| 0 <= i < |items| && key == ClauseKey(items[i].hit);
        var id := items[i].hit.id;
        assert Fusion.ItemIds(items)[i] == id;
        RepresentativeIsRecalled(items, id);
      }
    }
  }

  lemma FusedHitAt(items: seq<Fusion.Item>, k: nat, id: string) returns (j: nat)
    requires k >= 1 && id in Fusion.ItemIds(items)
    ensures j < |Fusion.FusedHits(items, k)|
    ensures ClauseKey(Fusion.FusedHits(items, k)[j]) == ClauseKey(Fusion.Representative(items, id))
  {
    var fused := Fusion.FusedHits(items, k);
    Fusion.RankedIdsAreRecalledIds(items, k);
    assert id in Ids(fused);
    j :| 0 <= j < |fused| && Ids(fused)[j] == id;
    Fusion.FusedHitIsRecalled(items, k, j);
  }

  /** The candidates are exactly the recalled clauses, each id counting for its first copy's clause. */
  lemma CandidatesAreTheRecalledClauses(legs: seq<seq<Hit>>, k: nat, key: string)
    requires k >= 1
    ensures key in ClauseKeys(Candidates(legs, k)) <==> key in RepresentedClauses(Fusion.Items(legs))
    ensures LegsAgree(Fusion.Items(legs)) ==>
              (key in ClauseKeys(Candidates(legs, k)) <==> ClauseRecalled(Fusion.Items(legs), key))
  {
    var items := Fusion.Items(legs);
    var fused := Fusion.FusedHits(items, k);
    assert key in ClauseKeys(Candidates(legs, k)) <==> key in ClauseKeys(fused);
    if key in ClauseKeys(fused) {
      var j :| 0 <= j < |fused| && ClauseKey(fused[j]) == key;
      Fusion.FusedHitIsRecalled(items, k, j);
    }
    if key in RepresentedClauses(items) {
      var id :| id in Fusion.ItemIds(items) && key == ClauseKey(Fusion.Representative(items, id));
      var j := FusedHitAt(items, k, id);
      assert ClauseKeys(fused)[j] == key;
    }
    RepresentedAreRecalled(items);
  }

  lemma ClauseKeysAppend(a: seq<Hit>, b: seq<Hit>)
    ensures ClauseKeys(a + b) == ClauseKeys(a) + ClauseKeys(b)
  {
  }

  lemma FrontHasNoDuplicates(front: seq<string>, back: seq<string>)
    requires NoDuplicates(front + back)
    ensures NoDuplicates(front)
  {
    assert forall i :: 0 <= i < |front| ==> front[i] == (front + back)[i];
  }

  lemma TopOfReranked(pool: seq<Hit>, scorer: Hit -> real, topK: int)
    requires NoDuplicates(ClauseKeys(pool))
    ensures var top := ClauseKeys(SliceTo(ExpandAll(Reranked(pool, scorer)), Max(topK, 1)));
      NoDuplicates(top) && forall i :: 0 <= i < |top| ==> top[i] in ClauseKeys(pool)
  {
    RerankedRearranges(pool, scorer);
    var keys := ClauseKeys(Reranked(pool, scorer));
    var top := ClauseKeys(SliceTo(ExpandAll(Reranked(pool, scorer)), Max(topK, 1)));
    assert top <= keys;
    forall i | 0 <= i < |top| ensures top[i] in ClauseKeys(pool) {
      assert top[i] == keys[i] && keys[i] in keys;
    }
  }

  /** No clause comes back twice: not within the primary hits, not within the supplementary ones, not across. */
  lemma NoClauseTwice(all: seq<Hit>, cfg: Config, topK: int, scorer: Hit -> real)
    requires Workable(cfg, topK) && NoDuplicates(ClauseKeys(all))
    ensures NoDuplicates(ClauseKeys(Primary(all, cfg, topK, scorer) + Supplementary(all, cfg, topK)))
  {
    var pool := Diversity.At(all, PoolPositions(all, cfg, topK));
    var overflow := Diversity.At(all, OverflowPositions(all, cfg, topK));
    PoolAndOverflowClauses(all, cfg, topK);
    FrontHasNoDuplicates(ClauseKeys(pool), ClauseKeys(overflow));
    TopOfReranked(pool, scorer, topK);
    var primary, supplementary := Primary(all, cfg, topK, scorer), Supplementary(all, cfg, topK);
    ReplaceFront(ClauseKeys(pool), ClauseKeys(overflow), ClauseKeys(primary));
    ClauseKeysAppend(primary, supplementary);
  }

  /** As many primary hits as asked for, unless fewer clauses were recalled. */
  lemma PrimaryIsFull(all: seq<Hit>, cfg: Config, topK: int, scorer: Hit -> real)
    requires Workable(cfg, topK)
    ensures |Primary(all, cfg, topK, scorer)| == Min(Max(topK, 1), |all|)
  {
    Diversity.PoolIsFull(SourceKeys(all), cfg.maxChunksPerDocument, PoolLimit(cfg, topK));
    var pairs := ScoreAll(Diversity.At(all, PoolPositions(all, cfg, topK)), scorer);
    assert TotalOrder(ScoredLeq);
    SortedIsPermutation(pairs, ScoredLeq);
    SameMultisetSameElements(Sorted(pairs, ScoredLeq), pairs);
  }

  /** The whole clause when the child is a fragment of one. */
  function WholeClause(child: Hit): string {
    if child.parentText == "" then child.content else child.parentText
  }

  /** A pool hit as it is returned: its own score from the cross-encoder, and its whole clause. */
  ghost predicate ReturnedAs(child: Hit, scorer: Hit -> real, h: Hit) {
    && SameChunk(child, h) && h.score == scorer(child) && h.content == WholeClause(child)
    && "rerank_score" in h.payload && h.payload["rerank_score"] == Score(scorer(child))
  }

  /** A higher score, or the same score and an earlier place in the pool. */
  predicate Beats(all: seq<Hit>, pool: seq<nat>, scorer: Hit -> real, a: nat, b: nat)
    requires a < |pool| && b < |pool| && forall i :: 0 <= i < |pool| ==> pool[i] < |all|
  {
    var x, y := scorer(all[pool[a]]), scorer(all[pool[b]]);
    x > y || (x == y && a < b)
  }

  /** The returned hits are the pool's best by the cross-encoder's score, best first; `ranks` says where in the pool
      each was.
    */
  ghost predicate BestOfPool(all: seq<Hit>, pool: seq<nat>, scorer: Hit -> real, returned: seq<Hit>, ranks: seq<nat>)
    requires forall i :: 0 <= i < |pool| ==> pool[i] < |all|
  {
    && |ranks| == |returned| && NoDuplicates(ranks)
    && (forall i :: 0 <= i < |ranks| ==> ranks[i] < |pool| && ReturnedAs(all[pool[ranks[i]]], scorer, returned[i]))
    && (forall i, j :: 0 <= i < j < |ranks| ==> Beats(all, pool, scorer, ranks[i], ranks[j]))
    && (forall i, r: nat :: 0 <= i < |ranks| && r < |pool| && r !in ranks ==> Beats(all, pool, scorer, ranks[i], r))
  }

  lemma ReturnedRescored(child: Hit, scorer: Hit -> real)
    ensures ReturnedAs(child, scorer, Diversity.ExpandHit(Rescored(Scored(child, scorer(child)))))
  {
    var rescored := Rescored(Scored(child, scorer(child)));
    assert "rerank_score" in rescored.payload && "rerank_score" !in Diversity.EXPANSION_KEYS;
  }

  /** The front of a stable order beats everything that is not in it. */
  lemma FrontBeatsTheRest(all: seq<Hit>, pool: seq<nat>, scorer: Hit -> real, order: seq<nat>, n: nat, i: nat, r: nat)
    requires (forall k :: 0 <= k < |pool| ==> pool[k] < |all|) && n <= |order| == |pool| && NoDuplicates(order)
    requires forall k :: 0 <= k < |order| ==> order[k] < |pool|
    requires forall k, l :: 0 <= k < l < |order| ==> Beats(all, pool, scorer, order[k], order[l])
    requires i < n && r < |pool| && r !in order[..n]
    ensures Beats(all, pool, scorer, order[i], r)
  {
    AllPositionsOccur(order, |pool|, r);
    var j :| 0 <= j < |order| && order[j] == r;
    assert forall k :: 0 <= k < n ==> order[k] == order[..n][k] != r;
  }

  /** The cross-encoder's order of the pool. */
  lemma PoolOrder(all: seq<Hit>, pool: seq<nat>, scorer: Hit -> real) returns (order: seq<nat>)
    requires forall k :: 0 <= k < |pool| ==> pool[k] < |all|
    ensures |order| == |pool| == |Reranked(Diversity.At(all, pool), scorer)| && NoDuplicates(order)
    ensures forall k :: 0 <= k < |order| ==>
              && order[k] < |pool|
              && Reranked(Diversity.At(all, pool), scorer)[k]
                   == Rescored(Scored(all[pool[order[k]]], scorer(all[pool[order[k]]])))
    ensures forall k, l :: 0 <= k < l < |order| ==> Beats(all, pool, scorer, order[k], order[l])
  {
    var pairs := ScoreAll(Diversity.At(all, pool), scorer);
    assert TotalOrder(ScoredLeq);
    order := SortedIsStable(pairs, ScoredLeq);
    forall k, l | 0 <= k < l < |order| ensures Beats(all, pool, scorer, order[k], order[l]) {
      assert ComesFirst(pairs, ScoredLeq, order[k], order[l]) && order[k] != order[l];
    }
  }

  /** The primary hits are the top_k best of the pool, in the cross-encoder's order; equal scores keep the fused order.
    */
  lemma PrimaryIsBestOfPool(all: seq<Hit>, cfg: Config, topK: int, scorer: Hit -> real) returns (ranks: seq<nat>)
    requires Workable(cfg, topK)
    ensures BestOfPool(all, PoolPositions(all, cfg, topK), scorer, Primary(all, cfg, topK, scorer), ranks)
    ensures |PoolPositions(all, cfg, topK)| == Min(Max(cfg.prefusionTopN, topK), |all|)
    ensures |Primary(all, cfg, topK, scorer)| == Min(Max(topK, 1), |all|)
  {
    var pool, primary := PoolPositions(all, cfg, topK), Primary(all, cfg, topK, scorer);
    Diversity.PoolIsFull(SourceKeys(all), cfg.maxChunksPerDocument, PoolLimit(cfg, topK));
    PrimaryIsFull(all, cfg, topK, scorer);
    var order := PoolOrder(all, pool, scorer);
    var n := |primary|;
    ranks := order[..n];
    forall i | 0 <= i < |ranks| ensures ranks[i] < |pool| && ReturnedAs(all[pool[ranks[i]]], scorer, primary[i]) {
      ReturnedRescored(all[pool[order[i]]], scorer);
    }
    forall i, r: nat | 0 <= i < |ranks| && r < |pool| && r !in ranks ensures Beats(all, pool, scorer, ranks[i], r) {
      FrontBeatsTheRest(all, pool, scorer, order, n, i, r);
    }
  }

  /** The supplementary hits are the quota's overflow, in fused order and with the fused score, as whole clauses. */
  lemma SupplementaryIsOverflow(all: seq<Hit>, cfg: Config, topK: int, s: nat)
    requires Workable(cfg, topK)
    ensures |Supplementary(all, cfg, topK)| == |OverflowPositions(all, cfg, topK)|
    ensures s < |Supplementary(all, cfg, topK)| ==>
      var child, h := all[OverflowPositions(all, cfg, topK)[s]], Supplementary(all, cfg, topK)[s];
      && SameChunk(child, h) && h.score == child.score && h.content == WholeClause(child)
      && QUOTA_OVERFLOW_KEY in h.payload && h.payload[QUOTA_OVERFLOW_KEY] == Flag(true)
  {
  }

  /** Every supplementary hit is flagged, and its source already holds its full share of better-ranked pool hits. */
  lemma SupplementaryLostToTheQuota(all: seq<Hit>, cfg: Config, topK: int, s: nat) returns (p: nat, holders: set<nat>)
    requires Workable(cfg, topK) && s < |Supplementary(all, cfg, topK)|
    ensures p < |all| && Flagged(Supplementary(all, cfg, topK)[s])
    ensures SameChunk(Supplementary(all, cfg, topK)[s], all[p])
    ensures Diversity.SourceSaturated(
              SourceKeys(all), PoolPositions(all, cfg, topK), cfg.maxChunksPerDocument, p, holders)
  {
    p := OverflowPositions(all, cfg, topK)[s];
    holders := Diversity.OverflowIsSaturated(SourceKeys(all), cfg.maxChunksPerDocument, PoolLimit(cfg, topK),
                                             cfg.quotaOverflowTopN, p);
  }

  /** End to end: no clause twice, and as many primary hits as asked for unless fewer clauses were recalled. */
  lemma RetrievalIsFullAndDistinct(legs: seq<seq<Hit>>, cfg: Config, topK: int, scorer: Hit -> real)
    requires Workable(cfg, topK)
    ensures var items := Fusion.Items(legs); var all := Candidates(legs, cfg.rrfK);
      && NoDuplicates(ClauseKeys(Primary(all, cfg, topK, scorer) + Supplementary(all, cfg, topK)))
      && |Primary(all, cfg, topK, scorer)| == Min(Max(topK, 1), |RepresentedClauses(items)|)
      && (LegsAgree(items) ==> |Primary(all, cfg, topK, scorer)| == Min(Max(topK, 1), |RecalledClauses(items)|))
  {
    var items, all := Fusion.Items(legs), Candidates(legs, cfg.rrfK);
    NoClauseTwice(all, cfg, topK, scorer);
    PrimaryIsFull(all, cfg, topK, scorer);
    forall key ensures key in ClauseKeys(all) <==> key in RepresentedClauses(items) {
      CandidatesAreTheRecalledClauses(legs, cfg.rrfK, key);
    }
    NoDuplicatesCount(ClauseKeys(all), RepresentedClauses(items));
    RepresentedAreRecalled(items);
  }

  /** The stages after fusion. */
  method Refine(fused: seq<Hit>, scorer: Hit -> real, cfg: Config, topK: int) returns (r: Result<seq<Hit>, string>)
    ensures if cfg.maxChunksPerDocument < 1 || (PoolLimit(cfg, topK) >= 1 && cfg.quotaOverflowTopN < 0) then r.Err?
            else if PoolLimit(cfg, topK) < 1 then r == Ok([])
            else cfg.rrfK >= 1 ==>
              var all := Diversity.Collapsed(fused);
              r == Ok(Primary(all, cfg, topK, scorer) + Supplementary(all, cfg, topK))
  {
    var collapsed := Diversity.CollapseByParent(fused);
    var capped :=
      Diversity.CapPerDocument(collapsed, cfg.maxChunksPerDocument, PoolLimit(cfg, topK), cfg.quotaOverflowTopN);
    if capped.Err? {
      return Err(capped.error);
    }
    var (prefiltered, overflow) := capped.value;
    var reranked := Rerank(prefiltered, scorer);
    var expanded := Diversity.ExpandToParent(reranked);
    assert expanded == ExpandAll(reranked);
    var primary := SliceTo(expanded, Max(topK, 1));
    var expandedOverflow := Diversity.ExpandToParent(overflow);
    assert expandedOverflow == ExpandAll(overflow);
    if PoolLimit(cfg, topK) < 1 {
      assert prefiltered == [] && overflow == [] && ScoreAll(prefiltered, scorer) == [];
      assert primary + FlagAll(expandedOverflow) == [];
    }
    r := Ok(primary + FlagAll(expandedOverflow));
  }

  /** The three recall legs; the graph leg starts from what the two lexical ones ranked. */
  function RecallLegs(vectorHits: Option<seq<Hit>>, keywordHits: seq<Hit>, graph: Option<GraphLeg>,
                      cfg: Config): (r: seq<seq<Hit>>)
    ensures |r| == 3
  {
    var lexical := [if vectorHits.Some? then vectorHits.value else [], keywordHits];
    var seeds := Expand.Seeds(Expand.Interleaved(lexical, Expand.LongestLeg(lexical)));
    var expanded := if graph.None? then []
                    else graph.value.expand(SliceTo(seeds, Max(0, graph.value.seedTopN)), cfg.prefusionTopN);
    lexical + [expanded]
  }

  lemma NothingFusedFromNothing(legs: seq<seq<Hit>>, k: nat)
    requires k >= 1
    ensures Fusion.FusedHits(Fusion.Items(legs), k) == [] <==> Fusion.Items(legs) == []
  {
    var items, fused := Fusion.Items(legs), Fusion.FusedHits(Fusion.Items(legs), k);
    Fusion.RankedIdsAreRecalledIds(items, k);
    assert Ids(fused) == Fusion.RankedIds(Fusion.Ranking(items, k));
    if items != [] {
      assert Fusion.ItemIds(items)[0] in Ids(fused);
    } else {
      assert forall id :: id !in Ids(fused);
    }
  }

  method Retrieve(vectorHits: Option<seq<Hit>>, keywordHits: seq<Hit>, graph: Option<GraphLeg>, scorer: Hit -> real,
                  cfg: Config, topK: int)
      returns (r: Result<seq<Hit>, string>)
    ensures vectorHits.None? && !cfg.allowVectorFallback ==> r.Err?
    ensures vectorHits.Some? || cfg.allowVectorFallback ==>
      var legs := RecallLegs(vectorHits, keywordHits, graph, cfg);
      if cfg.rrfK < 1 then r.Err?
      else if Fusion.Items(legs) == [] then r == Ok([])
      else if cfg.maxChunksPerDocument < 1 || (PoolLimit(cfg, topK) >= 1 && cfg.quotaOverflowTopN < 0) then r.Err?
      else if PoolLimit(cfg, topK) < 1 then r == Ok([])
      else
        var all := Candidates(legs, cfg.rrfK);
        r == Ok(Primary(all, cfg, topK, scorer) + Supplementary(all, cfg, topK))
  {
    var vecHits: seq<Hit> := [];
    match vectorHits {
      case Some(hits) => vecHits := hits;
      case None =>
        if !cfg.allowVectorFallback {
          return Err("vector recall failed");
        }
    }
    var graphHits: seq<Hit> := [];
    match graph {
      case Some(leg) =>
        var seeds := Expand.SeedClauseIds([vecHits, keywordHits], leg.seedTopN);
        graphHits := leg.expand(seeds, cfg.prefusionTopN);
      case None =>
    }
    var legs := [vecHits, keywordHits, graphHits];
    assert legs == RecallLegs(vectorHits, keywordHits, graph, cfg);
    var fusion := Fusion.ReciprocalRankFusion(legs, cfg.rrfK);
    if fusion.Err? {
      return Err(fusion.error);
    }
    var fused := fusion.value;
    Fusion.RankedIdsAreRecalledIds(Fusion.Items(legs), cfg.rrfK);
    NothingFusedFromNothing(legs, cfg.rrfK);
    if fused == [] {
      return Ok([]);
    }
    r := Refine(fused, scorer, cfg, topK);
  }
}

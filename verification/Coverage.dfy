/** Sibling collapse and the per-document quota, said of the hits' own `source`, `parent_id` and `id`. */
module Coverage {
  import opened Common
  import opened Hits
  import Diversity
  import Expand
  import Fusion
  import FusionScores
  import Hybrid

  predicate Rising(positions: seq<nat>) {
    forall i, j :: 0 <= i < j < |positions| ==> positions[i] < positions[j]
  }

  /** Charged to one document: the same source, an uncited hit standing for a source named as its id. */
  predicate SameDocument(a: Hit, b: Hit) {
    if a.source != "" && b.source != "" then a.source == b.source
    else if a.source != "" then a.source == b.id
    else if b.source != "" then a.id == b.source
    else a.id == b.id
  }

  /** Of one clause, likewise. */
  predicate SameClause(a: Hit, b: Hit) {
    if a.parentId != "" && b.parentId != "" then a.parentId == b.parentId
    else if a.parentId != "" then a.parentId == b.id
    else if b.parentId != "" then a.id == b.parentId
    else a.id == b.id
  }

  // ----- the quota -----

  /** The positions kept ahead of i. */
  function Ahead(kept: seq<nat>, i: nat): set<nat> {
    set q | q in kept && q < i
  }

  /** Those charged to the document of the hit at i. */
  function AheadOfItsDocument(hits: seq<Hit>, kept: seq<nat>, i: nat): set<nat>
    requires i < |hits|
  {
    set q | q in kept && q < i && SameDocument(hits[q], hits[i])
  }

  /** Walking down the ranking, a hit is kept while there is room in all and room for its document; one that finds room
      in all but none for its document is put aside.
    */
  ghost predicate KeptAndPutAside(hits: seq<Hit>, m: nat, limit: nat, kept: seq<nat>, aside: seq<nat>) {
    && Rising(kept) && Rising(aside)
    && (forall q :: q in kept || q in aside ==> q < |hits|)
    && forall i: nat :: i < |hits| ==>
         && (i in kept <==> |Ahead(kept, i)| < limit && |AheadOfItsDocument(hits, kept, i)| < m)
         && (i in aside <==> |Ahead(kept, i)| < limit && |AheadOfItsDocument(hits, kept, i)| >= m)
  }

  lemma {:induction false} TakenIsAhead(sel: set<nat>, kept: seq<nat>, n: nat)
    requires forall q: nat :: q < n ==> (q in kept <==> q in sel)
    ensures |Ahead(kept, n)| == Diversity.Taken(sel, n)
  {
    if n > 0 {
      TakenIsAhead(sel, kept, n - 1);
      if n - 1 in kept {
        assert Ahead(kept, n) == Ahead(kept, n - 1) + {n - 1};
      } else {
        assert Ahead(kept, n) == Ahead(kept, n - 1);
      }
    } else {
      assert Ahead(kept, n) == {};
    }
  }

  lemma KeysAreDocuments(hits: seq<Hit>, q: nat, i: nat)
    requires q < |hits| && i < |hits|
    ensures SourceKeys(hits)[q] == SourceKeys(hits)[i] <==> SameDocument(hits[q], hits[i])
  {
  }

  lemma ListedIff(sel: set<nat>, n: nat, p: nat)
    requires p < n
    ensures p in Diversity.Positions(sel, n) <==> p in sel
  {
    if p in sel { Diversity.PositionsComplete(sel, n, p); }
  }

  lemma QuotaAt(hits: seq<Hit>, m: nat, limit: nat, kept: seq<nat>, aside: seq<nat>, i: nat)
    requires i < |hits|
    requires kept == Diversity.Admitted(SourceKeys(hits), m, limit)
    requires aside == Diversity.TurnedAway(SourceKeys(hits), m, limit)
    ensures i in kept <==> |Ahead(kept, i)| < limit && |AheadOfItsDocument(hits, kept, i)| < m
    ensures i in aside <==> |Ahead(kept, i)| < limit && |AheadOfItsDocument(hits, kept, i)| >= m
  {
    var keys := SourceKeys(hits);
    var quota, away := Diversity.Quota(keys, m, limit, |keys|), Diversity.Rejected(keys, m, limit, |keys|);
    forall q: nat | q < |keys| ensures (q in kept <==> q in quota) && (q in aside <==> q in away) {
      ListedIff(quota, |keys|, q);
      ListedIff(away, |keys|, q);
    }
    Diversity.QuotaAdmits(keys, m, limit, i, |keys|, quota);
    TakenIsAhead(quota, kept, i);
    Diversity.TakenOfCardinality(keys, quota, keys[i], i);
    assert AheadOfItsDocument(hits, kept, i) == Diversity.Holders(keys, quota, keys[i], i) by {
      forall q: nat | q < i ensures keys[q] == keys[i] <==> SameDocument(hits[q], hits[i]) {
        KeysAreDocuments(hits, q, i);
      }
    }
  }

  /** What the quota returns: the kept hits, then the first put-aside ones that fill the pool; the next ones overflow.
    */
  lemma PoolIsKeptThenFilled(hits: seq<Hit>, m: nat, limit: nat, overflowLimit: nat)
      returns (kept: seq<nat>, aside: seq<nat>, filled: nat)
    ensures KeptAndPutAside(hits, m, limit, kept, aside)
    ensures filled == Min(|aside|, Max(0, limit - |kept|))
    ensures Diversity.Pool(SourceKeys(hits), m, limit) == kept + aside[..filled]
    ensures Diversity.Overflow(SourceKeys(hits), m, limit, overflowLimit)
         == aside[filled..][..Min(overflowLimit, |aside| - filled)]
  {
    var keys := SourceKeys(hits);
    kept, aside := Diversity.Admitted(keys, m, limit), Diversity.TurnedAway(keys, m, limit);
    filled := Min(|aside|, Max(0, limit - |kept|));
    Diversity.PositionsAscend(Diversity.Quota(keys, m, limit, |keys|), |keys|);
    Diversity.PositionsAscend(Diversity.Rejected(keys, m, limit, |keys|), |keys|);
    forall i: nat | i < |hits|
      ensures i in kept <==> |Ahead(kept, i)| < limit && |AheadOfItsDocument(hits, kept, i)| < m
      ensures i in aside <==> |Ahead(kept, i)| < limit && |AheadOfItsDocument(hits, kept, i)| >= m
    {
      QuotaAt(hits, m, limit, kept, aside, i);
    }
  }

  /** The pool and the overflow of a retrieval, by its configuration. */
  lemma RetrievalPool(all: seq<Hit>, cfg: Hybrid.Config, topK: int)
      returns (kept: seq<nat>, aside: seq<nat>, filled: nat)
    requires Hybrid.Workable(cfg, topK)
    ensures KeptAndPutAside(all, cfg.maxChunksPerDocument, Max(cfg.prefusionTopN, topK), kept, aside)
    ensures filled == Min(|aside|, Max(0, Max(cfg.prefusionTopN, topK) - |kept|))
    ensures Hybrid.PoolPositions(all, cfg, topK) == kept + aside[..filled]
    ensures Hybrid.OverflowPositions(all, cfg, topK) == aside[filled..][..Min(cfg.quotaOverflowTopN, |aside| - filled)]
  {
    kept, aside, filled := PoolIsKeptThenFilled(all, cfg.maxChunksPerDocument, Max(cfg.prefusionTopN, topK),
                                                cfg.quotaOverflowTopN);
  }

  // ----- sibling collapse -----

  /** The other hits of the clause of the hit at i. */
  function Siblings(hits: seq<Hit>, i: nat): set<nat>
    requires i < |hits|
  {
    set q | 0 <= q < |hits| && q != i && SameClause(hits[q], hits[i])
  }

  /** The positions where a clause turns up for the first time, in order. */
  ghost predicate FirstOfEachClause(hits: seq<Hit>, firsts: seq<nat>) {
    && Rising(firsts)
    && (forall j :: 0 <= j < |firsts| ==> firsts[j] < |hits|)
    && forall i: nat :: i < |hits| ==> (i in firsts <==> forall q :: 0 <= q < i ==> !SameClause(hits[q], hits[i]))
  }

  lemma KeysAreClauses(hits: seq<Hit>, q: nat, i: nat)
    requires q < |hits| && i < |hits|
    ensures ClauseKeys(hits)[q] == ClauseKeys(hits)[i] <==> SameClause(hits[q], hits[i])
  {
  }

  function Holding(keys: seq<string>, key: string, n: nat): set<nat>
    requires n <= |keys|
  {
    set q | 0 <= q < n && keys[q] == key
  }

  lemma {:induction false} OccurrencesAreHolding(keys: seq<string>, key: string, n: nat)
    requires n <= |keys|
    ensures |Holding(keys, key, n)| == Diversity.Occurrences(keys, key, n)
  {
    if n > 0 {
      OccurrencesAreHolding(keys, key, n - 1);
      if keys[n - 1] == key {
        assert Holding(keys, key, n) == Holding(keys, key, n - 1) + {n - 1};
      } else {
        assert Holding(keys, key, n) == Holding(keys, key, n - 1);
      }
    }
  }

  lemma SiblingsAreCounted(hits: seq<Hit>, i: nat)
    requires i < |hits|
    ensures |Siblings(hits, i)| == Diversity.Occurrences(ClauseKeys(hits), ClauseKey(hits[i]), |hits|) - 1
  {
    var keys := ClauseKeys(hits);
    OccurrencesAreHolding(keys, keys[i], |keys|);
    forall q | 0 <= q < |hits| ensures keys[q] == keys[i] <==> SameClause(hits[q], hits[i]) {
      KeysAreClauses(hits, q, i);
    }
    assert Holding(keys, keys[i], |keys|) == Siblings(hits, i) + {i};
  }

  /** Where each distinct key first occurs. */
  function Firsts(keys: seq<string>): (r: seq<nat>)
    ensures |r| == |Distinct(keys)|
  {
    var order := Distinct(keys);
    assert forall j :: 0 <= j < |order| ==> order[j] in order;
    seq(|order|, j requires 0 <= j < |order| => Diversity.FirstIndex(keys, order[j]))
  }

  lemma FirstIsUnique(keys: seq<string>, key: string, i: nat)
    requires FirstAt(keys, key, i)
    ensures key in keys && Diversity.FirstIndex(keys, key) == i
  {
    var r := Diversity.FirstIndex(keys, key);
    assert forall q :: 0 <= q < i ==> keys[q] in keys[..i];
    assert forall q :: 0 <= q < r ==> keys[q] in keys[..r];
  }

  lemma FirstsRise(keys: seq<string>)
    ensures Rising(Firsts(keys))
  {
    forall a, b | 0 <= a < b < |Firsts(keys)| ensures Firsts(keys)[a] < Firsts(keys)[b] {
      var i, j := DistinctKeepsOrder(keys, a, b);
      FirstIsUnique(keys, Distinct(keys)[a], i);
      FirstIsUnique(keys, Distinct(keys)[b], j);
    }
  }

  lemma FirstsAreFirst(keys: seq<string>, i: nat)
    requires i < |keys|
    ensures i in Firsts(keys) <==> forall q :: 0 <= q < i ==> keys[q] != keys[i]
  {
    var order, firsts := Distinct(keys), Firsts(keys);
    if i in firsts {
      var j :| 0 <= j < |firsts| && firsts[j] == i;
      assert order[j] in order;
      forall q | 0 <= q < i ensures keys[q] != keys[i] { assert keys[..i][q] == keys[q]; }
    }
    if forall q :: 0 <= q < i ==> keys[q] != keys[i] {
      assert keys[i] !in keys[..i];
      FirstIsUnique(keys, keys[i], i);
      var j :| 0 <= j < |order| && order[j] == keys[i];
      assert firsts[j] == i;
    }
  }

  /** What collapsing returns: the first hit of each clause, in order, marked with how many siblings it stands for. */
  lemma CollapsedAreFirsts(hits: seq<Hit>) returns (firsts: seq<nat>)
    ensures FirstOfEachClause(hits, firsts) && |Diversity.Collapsed(hits)| == |firsts|
    ensures forall j :: 0 <= j < |firsts| ==>
              var first, others := hits[firsts[j]], |Siblings(hits, firsts[j])|;
              Diversity.Collapsed(hits)[j]
                == if others == 0 then first
                   else first.(payload := first.payload["collapsed_siblings" := Number(others)])
  {
    var keys := ClauseKeys(hits);
    firsts := Firsts(keys);
    FirstsRise(keys);
    var order := Distinct(keys);
    assert ClauseKeys(Diversity.Collapsed(hits)) == order;
    forall j | 0 <= j < |firsts|
      ensures firsts[j] < |hits|
      ensures var first, others := hits[firsts[j]], |Siblings(hits, firsts[j])|;
        Diversity.Collapsed(hits)[j]
          == if others == 0 then first else first.(payload := first.payload["collapsed_siblings" := Number(others)])
    {
      assert order[j] in order;
      SiblingsAreCounted(hits, firsts[j]);
    }
    forall i: nat | i < |hits|
      ensures i in firsts <==> forall q :: 0 <= q < i ==> !SameClause(hits[q], hits[i])
    {
      FirstsAreFirst(keys, i);
      forall q | 0 <= q < i ensures keys[q] == keys[i] <==> SameClause(hits[q], hits[i]) { KeysAreClauses(hits, q, i); }
    }
  }

  // ----- the legs of a retrieval -----

  lemma PointsOfFirst(leg: seq<Hit>, rest: seq<seq<Hit>>, k: nat, id: string)
    requires k >= 1
    ensures FusionScores.Points([leg] + rest, k, id)
         == FusionScores.LegPoints(leg, k, id, 0) + FusionScores.Points(rest, k, id)
  {
    assert ([leg] + rest)[1..] == rest;
  }

  lemma ThreeLegsFlat(v: seq<Hit>, words: seq<Hit>, g: seq<Hit>, k: nat, id: string)
    requires k >= 1
    ensures FusionScores.Points([v, words, g], k, id)
         == FusionScores.LegPoints(v, k, id, 0) + FusionScores.LegPoints(words, k, id, 0)
            + FusionScores.LegPoints(g, k, id, 0)
  {
    assert [v, words, g] == [v] + [words, g] && [words, g] == [words] + [g] && [g] == [g] + [];
    PointsOfFirst(v, [words, g], k, id);
    PointsOfFirst(words, [g], k, id);
    PointsOfFirst(g, [], k, id);
  }

  lemma OneOfThree(v: seq<Hit>, words: seq<Hit>, g: seq<Hit>, id: string)
    ensures Fusion.InSomeLeg([v, words, g], id) <==> id in Ids(v) || id in Ids(words) || id in Ids(g)
  {
    var legs := [v, words, g];
    assert id in Ids(v) ==> id in Ids(legs[0]);
    assert id in Ids(words) ==> id in Ids(legs[1]);
    assert id in Ids(g) ==> id in Ids(legs[2]);
  }

  /** All three legs vote: vectors, keywords, and what the graph reaches from the seeds that the first two name. */
  lemma ThreeLegsVote(vectorHits: Option<seq<Hit>>, words: seq<Hit>, graph: Option<Hybrid.GraphLeg>,
                      cfg: Hybrid.Config, id: string, v: seq<Hit>, seeds: seq<string>, g: seq<Hit>)
    requires cfg.rrfK >= 1
    requires v == if vectorHits.Some? then vectorHits.value else []
    requires seeds == Expand.Seeds(Expand.Interleaved([v, words], Max(|v|, |words|)))
    requires g == match graph
                  case None => []
                  case Some(leg) => leg.expand(seeds[..Min(Max(0, leg.seedTopN), |seeds|)], cfg.prefusionTopN)
    ensures var legs := Hybrid.RecallLegs(vectorHits, words, graph, cfg);
      && FusionScores.Points(legs, cfg.rrfK, id)
           == FusionScores.LegPoints(v, cfg.rrfK, id, 0) + FusionScores.LegPoints(words, cfg.rrfK, id, 0)
              + FusionScores.LegPoints(g, cfg.rrfK, id, 0)
      && (id in Ids(Fusion.FusedHits(Fusion.Items(legs), cfg.rrfK))
          <==> id in Ids(v) || id in Ids(words) || id in Ids(g))
  {
    var lexical := [v, words];
    assert lexical[..1] == [v] && [v][..0] == [];
    assert Expand.LongestLeg([v]) == |v|;
    assert Expand.LongestLeg(lexical) == Max(|v|, |words|);
    var legs := Hybrid.RecallLegs(vectorHits, words, graph, cfg);
    assert legs == [v, words, g];
    ThreeLegsFlat(v, words, g, cfg.rrfK, id);
    OneOfThree(v, words, g, id);
    Fusion.RankedIdsAreRecalledIds(Fusion.Items(legs), cfg.rrfK);
    Fusion.ItemIdsAreLegIds(legs, id);
  }
}

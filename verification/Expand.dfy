/** The graph expansion leg: which clauses it starts from and how it ranks what it reaches. */
module Expand {
  import opened Common
  import opened Hits
  import opened Text

  const KIND_CITES := "cites"

  /** One query row; empty strings stand for absent fields. */
  datatype Row = Row(clauseId: string, weight: int, seed: string)

  datatype Neighbor = Neighbor(clauseId: string, weight: int, kinds: set<string>, seedCount: nat)

  function KindRank(n: Neighbor): nat {
    if KIND_CITES in n.kinds then 0 else 1
  }

  predicate NeighborLeq(a: Neighbor, b: Neighbor) {
    if a.weight != b.weight then a.weight > b.weight
    else if a.seedCount != b.seedCount then a.seedCount > b.seedCount
    else if KindRank(a) != KindRank(b) then KindRank(a) < KindRank(b)
    else StringLeq(a.clauseId, b.clauseId)
  }

  lemma NeighborLeqTotal()
    ensures TotalOrder(NeighborLeq)
  {
    forall a: Neighbor, b: Neighbor ensures NeighborLeq(a, b) || NeighborLeq(b, a) {
      StringLeqTotal(a.clauseId, b.clauseId);
    }
    forall a: Neighbor, b: Neighbor, c: Neighbor | NeighborLeq(a, b) && NeighborLeq(b, c) ensures NeighborLeq(a, c) {
      if StringLeq(a.clauseId, b.clauseId) && StringLeq(b.clauseId, c.clauseId) {
        StringLeqTransitive(a.clauseId, b.clauseId, c.clauseId);
      }
    }
  }

  // ----- aggregation of the rows, clause by clause -----

  function WeightStep(id: string): (int, Row) -> int {
    (total: int, row: Row) => if row.clauseId == id then total + row.weight else total
  }

  function SeedStep(id: string): (set<string>, Row) -> set<string> {
    (seeds: set<string>, row: Row) => if row.clauseId == id && row.seed != "" then seeds + {row.seed} else seeds
  }

  function NeighborOf(rows: seq<Row>, kind: string, id: string): Neighbor {
    Neighbor(id, Fold(rows, WeightStep(id), 0), {kind}, |Fold(rows, SeedStep(id), {})|)
  }

  /** The clauses the rows reach, in order of first mention. */
  function Reached(rows: seq<Row>): (r: seq<string>)
    ensures NoDuplicates(r)
  {
    if rows == [] then [] else
    var init, id := Reached(rows[..|rows| - 1]), rows[|rows| - 1].clauseId;
    if id == "" || id in init then init else init + [id]
  }

  function Neighbors(rows: seq<Row>, kind: string): (r: seq<Neighbor>)
    ensures |r| == |Reached(rows)|
  {
    var ids := Reached(rows);
    seq(|ids|, i requires 0 <= i < |ids| => NeighborOf(rows, kind, ids[i]))
  }

  function RankedNeighbors(rows: seq<Row>, kind: string): seq<Neighbor> {
    Sorted(Neighbors(rows, kind), NeighborLeq)
  }

  lemma {:induction false} ReachedMembers(rows: seq<Row>, id: string)
    ensures id in Reached(rows) <==> id != "" && exists i :: 0 <= i < |rows| && rows[i].clauseId == id
  {
    if rows != [] {
      var init := rows[..|rows| - 1];
      ReachedMembers(init, id);
      if exists i :: 0 <= i < |init| && init[i].clauseId == id {
        var i :| 0 <= i < |init| && init[i].clauseId == id;
        assert rows[i].clauseId == id;
      }
    }
  }

  /** Every reached clause is ranked exactly once, under the totals of all its rows. */
  lemma RankedNeighborsHoldEveryClause(rows: seq<Row>, kind: string)
    ensures Ordered(RankedNeighbors(rows, kind), NeighborLeq) && NoDuplicates(RankedNeighbors(rows, kind))
    ensures |RankedNeighbors(rows, kind)| == |Reached(rows)|
    ensures forall n :: n in RankedNeighbors(rows, kind)
                    <==> n.clauseId in Reached(rows) && n == NeighborOf(rows, kind, n.clauseId)
  {
    var ids, all, ranked := Reached(rows), Neighbors(rows, kind), RankedNeighbors(rows, kind);
    NeighborLeqTotal();
    SortedIsPermutation(all, NeighborLeq);
    SameMultisetSameElements(ranked, all);
    forall i, j | 0 <= i < j < |all| ensures all[i] != all[j] {
      assert all[i].clauseId == ids[i] && all[j].clauseId == ids[j];
    }
    SameMultisetNoDuplicates(all, ranked);
    forall n ensures n in ranked <==> n.clauseId in ids && n == NeighborOf(rows, kind, n.clauseId) {
      if n.clauseId in ids && n == NeighborOf(rows, kind, n.clauseId) {
        var i :| 0 <= i < |ids| && ids[i] == n.clauseId;
        assert all[i] == n;
      }
      if n in all {
        var i :| 0 <= i < |all| && all[i] == n;
        assert n.clauseId == ids[i];
      }
    }
  }

  lemma SameAggregates(a: seq<Row>, b: seq<Row>, kind: string, id: string)
    requires multiset(a) == multiset(b)
    ensures NeighborOf(a, kind, id) == NeighborOf(b, kind, id)
    ensures id in Reached(a) <==> id in Reached(b)
  {
    FoldPermutation(a, b, WeightStep(id), 0);
    assert Commutes(SeedStep(id)) by {
      forall seeds: set<string>, x, y
        ensures SeedStep(id)(SeedStep(id)(seeds, x), y) == SeedStep(id)(SeedStep(id)(seeds, y), x)
      {
        assert seeds + {x.seed} + {y.seed} == seeds + {y.seed} + {x.seed};
      }
    }
    FoldPermutation(a, b, SeedStep(id), {});
    ReachedMembers(a, id);
    ReachedMembers(b, id);
    SameMultisetSameElements(a, b);
    assert forall i :: 0 <= i < |a| ==> a[i] in b;
    assert forall i :: 0 <= i < |b| ==> b[i] in a;
  }

  /** The ranking is a function of which rows came back, not of their order. */
  lemma RankedNeighborsIgnoreRowOrder(a: seq<Row>, b: seq<Row>, kind: string)
    requires multiset(a) == multiset(b)
    ensures RankedNeighbors(a, kind) == RankedNeighbors(b, kind)
  {
    var r, r' := RankedNeighbors(a, kind), RankedNeighbors(b, kind);
    RankedNeighborsHoldEveryClause(a, kind);
    RankedNeighborsHoldEveryClause(b, kind);
    forall n ensures n in r <==> n in r' {
      SameAggregates(a, b, kind, n.clauseId);
    }
    SameElementsSameMultiset(r, r');
    forall x: Neighbor, y: Neighbor | x in r && y in r && NeighborLeq(x, y) && NeighborLeq(y, x) ensures x == y {
      StringLeqAntisymmetric(x.clauseId, y.clauseId);
    }
    OrderedUnique(r, r', NeighborLeq);
  }

  /** The cap keeps the best: whatever was reached but not returned ranks strictly below everything returned. */
  lemma TopNeighbors(rows: seq<Row>, kind: string, maxResults: nat, kept: Neighbor, cut: Neighbor)
    requires kept in SliceTo(RankedNeighbors(rows, kind), maxResults)
    requires cut.clauseId in Reached(rows) && cut == NeighborOf(rows, kind, cut.clauseId)
    requires cut !in SliceTo(RankedNeighbors(rows, kind), maxResults)
    ensures |SliceTo(RankedNeighbors(rows, kind), maxResults)| == maxResults < |Reached(rows)|
    ensures NeighborLeq(kept, cut) && !NeighborLeq(cut, kept)
  {
    RankedNeighborsHoldEveryClause(rows, kind);
    var ranked := RankedNeighbors(rows, kind);
    var top := SliceTo(ranked, maxResults);
    var i :| 0 <= i < |top| && top[i] == kept;
    assert ranked[i] == kept;
    assert cut in ranked;
    var j :| 0 <= j < |ranked| && ranked[j] == cut;
    assert forall t :: 0 <= t < |top| ==> top[t] in top && top[t] == ranked[t];
    assert j >= maxResults && NeighborLeq(kept, cut);
    assert kept in ranked && kept != cut;
    if NeighborLeq(cut, kept) {
      StringLeqAntisymmetric(cut.clauseId, kept.clauseId);
    }
  }

  /** The aggregation dictionaries after the first rows, for one clause. */
  ghost predicate AggregatedAt(done: seq<Row>, kind: string, weight: map<string, int>,
                               kinds: map<string, set<string>>, seeds: map<string, set<string>>, id: string)
  {
    && (id in weight <==> id in Reached(done))
    && (id in weight ==> weight[id] == Fold(done, WeightStep(id), 0) && id in kinds && kinds[id] == {kind})
    && (id !in weight && id != "" ==> Fold(done, WeightStep(id), 0) == 0 && id !in kinds)
    && (id != "" ==> (if id in seeds then seeds[id] else {}) == Fold(done, SeedStep(id), {}))
  }

  ghost predicate Aggregated(done: seq<Row>, kind: string, weight: map<string, int>,
                             kinds: map<string, set<string>>, seeds: map<string, set<string>>)
  {
    forall id :: AggregatedAt(done, kind, weight, kinds, seeds, id)
  }

  lemma AggregatedNext(done: seq<Row>, row: Row, kind: string,
                       weight: map<string, int>, kinds: map<string, set<string>>, seeds: map<string, set<string>>,
                       weight': map<string, int>, kinds': map<string, set<string>>, seeds': map<string, set<string>>)
    requires Aggregated(done, kind, weight, kinds, seeds)
    requires var id := row.clauseId;
      if id == "" then weight' == weight && kinds' == kinds && seeds' == seeds
      else
        && weight' == weight[id := (if id in weight then weight[id] else 0) + row.weight]
        && kinds' == kinds[id := (if id in kinds then kinds[id] else {}) + {kind}]
        && seeds' == if row.seed == "" then seeds else seeds[id := (if id in seeds then seeds[id] else {}) + {row.seed}]
    ensures Aggregated(done + [row], kind, weight', kinds', seeds')
  {
    var now := done + [row];
    assert now[..|done|] == done;
    forall id ensures AggregatedAt(now, kind, weight', kinds', seeds', id) {
      assert AggregatedAt(done, kind, weight, kinds, seeds, id);
      FoldSnoc(done, row, WeightStep(id), 0);
      FoldSnoc(done, row, SeedStep(id), {});
      ReachedMembers(done, id);
    }
  }

  method RankNeighbors(rows: seq<Row>, kind: string, maxResults: int) returns (r: seq<Neighbor>)
    ensures r == SliceTo(RankedNeighbors(rows, kind), maxResults)
  {
    var order: seq<string> := [];
    var weight: map<string, int> := map[];
    var kinds: map<string, set<string>>, seeds: map<string, set<string>> := map[], map[];
    for i := 0 to |rows|
      invariant order == Reached(rows[..i])
      invariant Aggregated(rows[..i], kind, weight, kinds, seeds)
    {
      var row := rows[i];
      var clauseId := row.clauseId;
      assert rows[..i + 1] == rows[..i] + [row] && rows[..i + 1][..i] == rows[..i];
      assert AggregatedAt(rows[..i], kind, weight, kinds, seeds, clauseId);
      if clauseId == "" {
        AggregatedNext(rows[..i], row, kind, weight, kinds, seeds, weight, kinds, seeds);
        continue;
      }
      if clauseId !in weight {
        order := order + [clauseId];
      }
      var weight' := weight[clauseId := (if clauseId in weight then weight[clauseId] else 0) + row.weight];
      var kinds' := kinds[clauseId := (if clauseId in kinds then kinds[clauseId] else {}) + {kind}];
      var seeds' := seeds;
      if row.seed != "" {
        seeds' := seeds[clauseId := (if clauseId in seeds then seeds[clauseId] else {}) + {row.seed}];
      }
      AggregatedNext(rows[..i], row, kind, weight, kinds, seeds, weight', kinds', seeds');
      weight, kinds, seeds := weight', kinds', seeds';
    }
    assert rows[..|rows|] == rows;
    var neighbors: seq<Neighbor> := [];
    for i := 0 to |order|
      invariant |neighbors| == i && forall j :: 0 <= j < i ==> neighbors[j] == Neighbors(rows, kind)[j]
    {
      var id := order[i];
      assert id in order;
      assert AggregatedAt(rows, kind, weight, kinds, seeds, id);
      ReachedMembers(rows, id);
      neighbors := neighbors + [Neighbor(id, weight[id], kinds[id], if id in seeds then |seeds[id]| else 0)];
    }
    assert neighbors == Neighbors(rows, kind);
    r := SliceTo(Sorted(neighbors, NeighborLeq), maxResults);
  }

  // ----- where the expansion starts -----

  /** The graph's key for a hit: its parent clause, unless that is blank. */
  function SeedKey(h: Hit): string {
    if Strip(h.parentId) != "" then Strip(h.parentId) else h.id
  }

  /** The hits at one rank of the first n legs. */
  function AtRank(legs: seq<seq<Hit>>, rank: nat, n: nat): seq<string>
    requires n <= |legs|
  {
    if n == 0 then []
    else AtRank(legs, rank, n - 1) + if rank < |legs[n - 1]| then [SeedKey(legs[n - 1][rank])] else []
  }

  /** Every leg's first, then every leg's second, and so on down to the given depth. */
  function Interleaved(legs: seq<seq<Hit>>, depth: nat): seq<string> {
    if depth == 0 then [] else Interleaved(legs, depth - 1) + AtRank(legs, depth - 1, |legs|)
  }

  function LongestLeg(legs: seq<seq<Hit>>): (r: nat)
    ensures forall l :: 0 <= l < |legs| ==> |legs[l]| <= r
  {
    if legs == [] then 0 else Max(LongestLeg(legs[..|legs| - 1]), |legs[|legs| - 1]|)
  }

  function NonEmpty(keys: seq<string>): seq<string> {
    if keys == [] then []
    else NonEmpty(keys[..|keys| - 1]) + if keys[|keys| - 1] == "" then [] else [keys[|keys| - 1]]
  }

  function Seeds(keys: seq<string>): seq<string> {
    Distinct(NonEmpty(keys))
  }

  lemma SeedsExtend(keys: seq<string>, key: string)
    ensures Seeds(keys + [key]) == Seeds(keys) + if key == "" || key in Seeds(keys) then [] else [key]
  {
    assert (keys + [key])[..|keys|] == keys;
    if key == "" {
      assert NonEmpty(keys + [key]) == NonEmpty(keys);
    } else {
      assert NonEmpty(keys + [key]) == NonEmpty(keys) + [key];
      assert (NonEmpty(keys) + [key])[..|NonEmpty(keys)|] == NonEmpty(keys);
    }
  }

  lemma {:induction false} SeedsPrefix(keys: seq<string>, more: seq<string>)
    ensures Seeds(keys) <= Seeds(keys + more)
    decreases |more|
  {
    if more == [] {
      assert keys + more == keys;
    } else {
      var init, last := more[..|more| - 1], more[|more| - 1];
      assert keys + more == (keys + init) + [last];
      SeedsPrefix(keys, init);
      SeedsExtend(keys + init, last);
    }
  }

  lemma PrefixGrows<T>(front: seq<T>, all: seq<T>, more: seq<T>)
    requires front <= all
    ensures front <= all + more
  {
  }

  lemma {:induction false} InterleavedPrefix(legs: seq<seq<Hit>>, shallow: nat, deep: nat)
    requires shallow <= deep
    ensures Interleaved(legs, shallow) <= Interleaved(legs, deep)
    decreases deep
  {
    if shallow < deep {
      InterleavedPrefix(legs, shallow, deep - 1);
      var above, here := Interleaved(legs, deep - 1), AtRank(legs, deep - 1, |legs|);
      PrefixGrows(Interleaved(legs, shallow), above, here);
      assert Interleaved(legs, deep) == above + here;
    }
  }

  lemma {:induction false} AtRankPrefix(legs: seq<seq<Hit>>, rank: nat, l: nat, n: nat)
    requires l <= n <= |legs|
    ensures AtRank(legs, rank, l) <= AtRank(legs, rank, n)
  {
    if l < n { AtRankPrefix(legs, rank, l, n - 1); }
  }

  lemma AtRankNext(legs: seq<seq<Hit>>, depth: nat, l: nat, above: seq<string>)
    requires l < |legs|
    ensures depth < |legs[l]| ==>
              above + AtRank(legs, depth, l + 1) == above + AtRank(legs, depth, l) + [SeedKey(legs[l][depth])]
    ensures depth >= |legs[l]| ==> above + AtRank(legs, depth, l + 1) == above + AtRank(legs, depth, l)
  {
  }

  lemma FrontIsSlice<T>(front: seq<T>, all: seq<T>, n: nat)
    requires front <= all && |front| <= n && (|front| == n || front == all)
    ensures front == SliceTo(all, n)
  {
  }

  /** What has been collected part-way through a rank is the front of the final list. */
  lemma SeedsSoFar(legs: seq<seq<Hit>>, depth: nat, l: nat)
    requires depth < LongestLeg(legs) && l <= |legs|
    ensures Seeds(Interleaved(legs, depth) + AtRank(legs, depth, l)) <= Seeds(Interleaved(legs, LongestLeg(legs)))
  {
    var all, above := Interleaved(legs, LongestLeg(legs)), Interleaved(legs, depth);
    var front, whole := above + AtRank(legs, depth, l), Interleaved(legs, depth + 1);
    AtRankPrefix(legs, depth, l, |legs|);
    PrefixUnder(above, AtRank(legs, depth, l), AtRank(legs, depth, |legs|));
    InterleavedPrefix(legs, depth + 1, LongestLeg(legs));
    PrefixTransitive(front, whole, all);
    PrefixSplits(front, all);
    SeedsPrefix(front, all[|front|..]);
  }

  lemma LongestLegNext(legs: seq<seq<Hit>>, i: nat)
    requires i < |legs|
    ensures LongestLeg(legs[..i + 1]) == Max(LongestLeg(legs[..i]), |legs[i]|)
  {
    assert legs[..i + 1][..i] == legs[..i];
  }

  /** One pass over the legs at one rank; stops as soon as the limit is reached. */
  method CollectRank(legs: seq<seq<Hit>>, depth: nat, limit: int, before: seq<string>, ghost above: seq<string>)
      returns (seeds: seq<string>, progressed: bool, ghost l: nat)
    requires before == Seeds(above) && |before| < limit
    ensures l <= |legs| && seeds == Seeds(above + AtRank(legs, depth, l)) && |seeds| <= limit
    ensures |seeds| < limit ==> l == |legs|
    ensures progressed <==> depth < LongestLeg(legs[..l])
    ensures !progressed ==> seeds == before
  {
    seeds, progressed := before, false;
    ghost var walked := above;
    var i := 0;
    while i < |legs|
      invariant 0 <= i <= |legs|
      invariant walked == above + AtRank(legs, depth, i)
      invariant seeds == Seeds(walked) && |seeds| < limit
      invariant progressed <==> depth < LongestLeg(legs[..i])
      invariant !progressed ==> seeds == before
    {
      var leg := legs[i];
      AtRankNext(legs, depth, i, above);
      LongestLegNext(legs, i);
      i := i + 1;
      if depth >= |leg| {
        continue;
      }
      progressed := true;
      var clauseId := SeedKey(leg[depth]);
      SeedsExtend(walked, clauseId);
      walked := walked + [clauseId];
      if clauseId == "" || clauseId in seeds {
        continue;
      }
      seeds := seeds + [clauseId];
      if |seeds| >= limit {
        return seeds, progressed, i;
      }
    }
    l := i;
  }

  lemma {:induction false} LongestLegMonotone(legs: seq<seq<Hit>>, l: nat)
    requires l <= |legs|
    ensures LongestLeg(legs[..l]) <= LongestLeg(legs)
  {
    if l < |legs| {
      assert legs[..|legs| - 1][..l] == legs[..l];
      LongestLegMonotone(legs[..|legs| - 1], l);
    } else {
      assert legs[..l] == legs;
    }
  }

  /** What one pass over the legs comes to. */
  lemma RankCollected(legs: seq<seq<Hit>>, depth: nat, l: nat, limit: int, more: seq<string>, progressed: bool)
    requires depth <= LongestLeg(legs) && l <= |legs|
    requires more == Seeds(Interleaved(legs, depth) + AtRank(legs, depth, l))
    requires |more| < limit ==> l == |legs|
    requires progressed <==> depth < LongestLeg(legs[..l])
    ensures progressed ==> depth < LongestLeg(legs) && more <= Seeds(Interleaved(legs, LongestLeg(legs)))
    ensures progressed && |more| < limit ==> more == Seeds(Interleaved(legs, depth + 1))
    ensures !progressed && |more| < limit ==> depth == LongestLeg(legs)
  {
    LongestLegMonotone(legs, l);
    assert legs[..|legs|] == legs;
    if progressed {
      SeedsSoFar(legs, depth, l);
    }
  }

  /** The seeds are the first `limit` distinct clause ids of the rank-by-rank interleaving. */
  method SeedClauseIds(legs: seq<seq<Hit>>, limit: int) returns (seeds: seq<string>)
    ensures seeds == SliceTo(Seeds(Interleaved(legs, LongestLeg(legs))), Max(0, limit))
  {
    seeds := [];
    var depth: nat := 0;
    ghost var longest := LongestLeg(legs);
    while |seeds| < limit
      invariant depth <= longest && |seeds| <= Max(0, limit)
      invariant seeds <= Seeds(Interleaved(legs, longest))
      invariant |seeds| < limit ==> seeds == Seeds(Interleaved(legs, depth))
      decreases longest - depth
    {
      var more, progressed, l := CollectRank(legs, depth, limit, seeds, Interleaved(legs, depth));
      RankCollected(legs, depth, l, limit, more, progressed);
      if !progressed {
        FrontIsSlice(seeds, Seeds(Interleaved(legs, longest)), limit);
        return;
      }
      seeds := more;
      depth := depth + 1;
    }
    FrontIsSlice(seeds, Seeds(Interleaved(legs, longest)), Max(0, limit));
  }
}

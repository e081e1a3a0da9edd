/** Reciprocal rank fusion over exact reals: every leg votes 1/(k + rank) for each hit it returns. */
module Fusion {
  import opened Common
  import opened Hits

  datatype Item = Item(rank: nat, hit: Hit)

  /** A fused position's sort key; fields in order of precedence. */
  datatype Key = Key(score: real, bestRank: nat, id: string)

  predicate KeyLeq(a: Key, b: Key) {
    a.score > b.score
    || (a.score == b.score
        && (a.bestRank < b.bestRank || (a.bestRank == b.bestRank && StringLeq(a.id, b.id))))
  }

  lemma KeyLeqTotal()
    ensures TotalOrder(KeyLeq)
  {
    forall a: Key, b: Key ensures KeyLeq(a, b) || KeyLeq(b, a) {
      StringLeqTotal(a.id, b.id);
    }
    forall a: Key, b: Key, c: Key | KeyLeq(a, b) && KeyLeq(b, c) ensures KeyLeq(a, c) {
      if StringLeq(a.id, b.id) && StringLeq(b.id, c.id) {
        StringLeqTransitive(a.id, b.id, c.id);
      }
    }
  }

  // ----- what the legs say, as one list of ranked items -----

  function RankedLeg(leg: seq<Hit>): (r: seq<Item>)
    ensures |r| == |leg|
  {
    seq(|leg|, i requires 0 <= i < |leg| => Item(i + 1, leg[i]))
  }

  function Items(legs: seq<seq<Hit>>): seq<Item> {
    if legs == [] then [] else Items(legs[..|legs| - 1]) + RankedLeg(legs[|legs| - 1])
  }

  function ItemIds(items: seq<Item>): (r: seq<string>)
    ensures |r| == |items|
  {
    seq(|items|, i requires 0 <= i < |items| => items[i].hit.id)
  }

  function Vote(k: nat, rank: nat): (v: real)
    requires k >= 1
    ensures v > 0.0
  {
    1.0 / (k + rank) as real
  }

  function ScoreStep(k: nat, id: string): (real, Item) -> real
    requires k >= 1
  {
    (total: real, item: Item) => total + if item.hit.id == id then Vote(k, item.rank) else 0.0
  }

  function ScoreOf(items: seq<Item>, k: nat, id: string): real
    requires k >= 1
  {
    Fold(items, ScoreStep(k, id), 0.0)
  }

  /** 0 stands for "not ranked yet"; real ranks start at 1. */
  function Better(best: nat, rank: nat): nat {
    if best == 0 then rank else if rank == 0 then best else Min(best, rank)
  }

  function BestStep(id: string): (nat, Item) -> nat {
    (best: nat, item: Item) => if item.hit.id == id then Better(best, item.rank) else best
  }

  function BestRankOf(items: seq<Item>, id: string): nat {
    Fold(items, BestStep(id), 0)
  }

  function KeyOf(items: seq<Item>, k: nat, id: string): Key
    requires k >= 1
  {
    Key(ScoreOf(items, k, id), BestRankOf(items, id), id)
  }

  function KeysOf(items: seq<Item>, k: nat): (r: seq<Key>)
    requires k >= 1
    ensures |r| == |Distinct(ItemIds(items))|
  {
    var ids := Distinct(ItemIds(items));
    seq(|ids|, i requires 0 <= i < |ids| => KeyOf(items, k, ids[i]))
  }

  /** The fused ranking, best first. */
  function Ranking(items: seq<Item>, k: nat): seq<Key>
    requires k >= 1
  {
    Sorted(KeysOf(items, k), KeyLeq)
  }

  function RankedIds(ranking: seq<Key>): (r: seq<string>)
    ensures |r| == |ranking|
  {
    seq(|ranking|, i requires 0 <= i < |ranking| => ranking[i].id)
  }

  /** The first item that carries the id: its hit represents the id in the result. */
  function Representative(items: seq<Item>, id: string): (h: Hit)
    requires id in ItemIds(items)
    ensures h.id == id
  {
    var last := |items| - 1;
    if id in ItemIds(items[..last]) then Representative(items[..last], id)
    else
      assert ItemIds(items) == ItemIds(items[..last]) + [items[last].hit.id];
      items[last].hit
  }

  /** Metadata of every leg's copy, later copies overwriting earlier ones. */
  function MergedPayload(items: seq<Item>, id: string): map<string, Value> {
    if items == [] then map[] else
    var last := items[|items| - 1].hit;
    var before := MergedPayload(items[..|items| - 1], id);
    if last.id == id then before + last.payload else before
  }

  function FusedHit(items: seq<Item>, key: Key, rank: nat): Hit
    requires key.id in ItemIds(items)
    ensures SameChunk(FusedHit(items, key, rank), Representative(items, key.id))
  {
    Representative(items, key.id).(
      score := key.score,
      payload := MergedPayload(items, key.id)["rrf_score" := Score(key.score)]["rrf_rank" := Number(rank)])
  }

  // ----- properties of the ranking -----

  lemma KeysOfMembers(items: seq<Item>, k: nat, key: Key)
    requires k >= 1
    ensures key in KeysOf(items, k) <==> key.id in ItemIds(items) && key == KeyOf(items, k, key.id)
  {
    var ids, keys := Distinct(ItemIds(items)), KeysOf(items, k);
    if key.id in ids && key == KeyOf(items, k, key.id) {
      var i :| 0 <= i < |ids| && ids[i] == key.id;
      assert keys[i] == key;
    }
    if key in keys {
      var i :| 0 <= i < |keys| && keys[i] == key;
      assert key.id == ids[i] && ids[i] in ids;
    }
  }

  lemma KeysOfDistinct(items: seq<Item>, k: nat)
    requires k >= 1
    ensures NoDuplicates(KeysOf(items, k))
  {
    var ids, keys := Distinct(ItemIds(items)), KeysOf(items, k);
    forall i, j | 0 <= i < j < |keys| ensures keys[i] != keys[j] {
      assert keys[i].id == ids[i] && keys[j].id == ids[j];
    }
  }

  /** The ranking holds exactly one key per recalled id, best first. */
  lemma RankingHoldsEveryKey(items: seq<Item>, k: nat)
    requires k >= 1
    ensures Ordered(Ranking(items, k), KeyLeq) && NoDuplicates(Ranking(items, k))
    ensures forall key :: key in Ranking(items, k) <==> key.id in ItemIds(items) && key == KeyOf(items, k, key.id)
  {
    var keys, ranking := KeysOf(items, k), Ranking(items, k);
    KeyLeqTotal();
    SortedIsPermutation(keys, KeyLeq);
    SameMultisetSameElements(ranking, keys);
    KeysOfDistinct(items, k);
    SameMultisetNoDuplicates(keys, ranking);
    forall key ensures key in ranking <==> key.id in ItemIds(items) && key == KeyOf(items, k, key.id) {
      KeysOfMembers(items, k, key);
    }
  }

  /** Every recalled id appears exactly once among the fused ids, and nothing else does. */
  lemma RankedIdsAreRecalledIds(items: seq<Item>, k: nat)
    requires k >= 1
    ensures NoDuplicates(RankedIds(Ranking(items, k)))
    ensures forall id :: id in RankedIds(Ranking(items, k)) <==> id in ItemIds(items)
  {
    RankingHoldsEveryKey(items, k);
    var ranking, ids := Ranking(items, k), RankedIds(Ranking(items, k));
    forall i, j | 0 <= i < j < |ids| ensures ids[i] != ids[j] {
      assert ranking[i] in ranking && ranking[j] in ranking;
    }
    forall id ensures id in ids <==> id in ItemIds(items) {
      if id in ItemIds(items) {
        assert KeyOf(items, k, id) in ranking;
        var i :| 0 <= i < |ranking| && ranking[i] == KeyOf(items, k, id);
        assert ids[i] == id;
      }
      if id in ids {
        var i :| 0 <= i < |ids| && ids[i] == id;
        assert ranking[i] in ranking;
      }
    }
  }

  predicate InSomeLeg(legs: seq<seq<Hit>>, id: string) {
    exists l :: 0 <= l < |legs| && id in Ids(legs[l])
  }

  lemma {:induction false} ItemIdsAreLegIds(legs: seq<seq<Hit>>, id: string)
    ensures id in ItemIds(Items(legs)) <==> InSomeLeg(legs, id)
  {
    if legs != [] {
      var init, last := legs[..|legs| - 1], legs[|legs| - 1];
      ItemIdsAreLegIds(init, id);
      assert ItemIds(Items(legs)) == ItemIds(Items(init)) + Ids(last);
      if InSomeLeg(init, id) {
        var l :| 0 <= l < |init| && id in Ids(init[l]);
        assert id in Ids(legs[l]);
      }
    }
  }

  // ----- the order of the legs does not matter -----

  function ItemsStep(): (multiset<Item>, seq<Hit>) -> multiset<Item> {
    (all: multiset<Item>, leg: seq<Hit>) => all + multiset(RankedLeg(leg))
  }

  lemma {:induction false} ItemsAsMultiset(legs: seq<seq<Hit>>)
    ensures multiset(Items(legs)) == Fold(legs, ItemsStep(), multiset{})
  {
    if legs != [] { ItemsAsMultiset(legs[..|legs| - 1]); }
  }

  lemma KeyIgnoresItemOrder(a: seq<Item>, b: seq<Item>, k: nat, id: string)
    requires k >= 1 && multiset(a) == multiset(b)
    ensures KeyOf(a, k, id) == KeyOf(b, k, id)
  {
    FoldPermutation(a, b, ScoreStep(k, id), 0.0);
    FoldPermutation(a, b, BestStep(id), 0);
  }

  lemma SameItemIds(a: seq<Item>, b: seq<Item>, id: string)
    requires multiset(a) == multiset(b)
    ensures id in ItemIds(a) <==> id in ItemIds(b)
  {
    SameMultisetSameElements(a, b);
    if id in ItemIds(a) {
      var i :| 0 <= i < |a| && a[i].hit.id == id;
      assert a[i] in b;
      var j :| 0 <= j < |b| && b[j] == a[i];
      assert ItemIds(b)[j] == id;
    }
    if id in ItemIds(b) {
      var i :| 0 <= i < |b| && b[i].hit.id == id;
      assert b[i] in a;
      var j :| 0 <= j < |a| && a[j] == b[i];
      assert ItemIds(a)[j] == id;
    }
  }

  lemma RankingIgnoresItemOrder(a: seq<Item>, b: seq<Item>, k: nat)
    requires k >= 1 && multiset(a) == multiset(b)
    ensures Ranking(a, k) == Ranking(b, k)
  {
    var r, r' := Ranking(a, k), Ranking(b, k);
    RankingHoldsEveryKey(a, k);
    RankingHoldsEveryKey(b, k);
    forall key ensures key in r <==> key in r' {
      KeyIgnoresItemOrder(a, b, k, key.id);
      SameItemIds(a, b, key.id);
    }
    SameElementsSameMultiset(r, r');
    forall x: Key, y: Key | KeyLeq(x, y) && KeyLeq(y, x) ensures x == y {
      StringLeqAntisymmetric(x.id, y.id);
    }
    OrderedUnique(r, r', KeyLeq);
  }

  /** Permuting the legs changes neither the fused ids, nor their order, nor their scores. */
  lemma RankingIgnoresLegOrder(legs: seq<seq<Hit>>, legs': seq<seq<Hit>>, k: nat)
    requires k >= 1 && multiset(legs) == multiset(legs')
    ensures Ranking(Items(legs), k) == Ranking(Items(legs'), k)
  {
    ItemsAsMultiset(legs);
    ItemsAsMultiset(legs');
    assert Commutes(ItemsStep()) by {
      forall all: multiset<Item>, x, y
        ensures ItemsStep()(ItemsStep()(all, x), y) == ItemsStep()(ItemsStep()(all, y), x)
      {
        var mx, my := multiset(RankedLeg(x)), multiset(RankedLeg(y));
        assert all + mx + my == all + my + mx;
      }
    }
    FoldPermutation(legs, legs', ItemsStep(), multiset{});
    RankingIgnoresItemOrder(Items(legs), Items(legs'), k);
  }

  // ----- agreement among the legs is respected -----

  /** The best rank of an id in one leg. */
  function RankIn(leg: seq<Hit>, id: string): (r: nat)
    requires id in Ids(leg)
    ensures 1 <= r <= |leg| && leg[r - 1].id == id && id !in Ids(leg)[..r - 1]
  {
    var init := leg[..|leg| - 1];
    assert Ids(leg) == Ids(init) + [leg[|leg| - 1].id];
    if id in Ids(init) then
      var r := RankIn(init, id);
      assert Ids(leg)[..r - 1] == Ids(init)[..r - 1];
      r
    else
      assert Ids(leg)[..|leg| - 1] == Ids(init);
      |leg|
  }

  function LegVote(leg: seq<Hit>, k: nat, id: string): real
    requires k >= 1
  {
    if id in Ids(leg) then Vote(k, RankIn(leg, id)) else 0.0
  }

  lemma {:induction false} ScoreOfAppend(s: seq<Item>, t: seq<Item>, k: nat, id: string)
    requires k >= 1
    ensures ScoreOf(s + t, k, id) == ScoreOf(s, k, id) + ScoreOf(t, k, id)
    decreases |t|
  {
    if t == [] {
      assert s + t == s;
    } else {
      var init, last := t[..|t| - 1], t[|t| - 1];
      assert s + t == (s + init) + [last] && t == init + [last];
      FoldSnoc(s + init, last, ScoreStep(k, id), 0.0);
      FoldSnoc(init, last, ScoreStep(k, id), 0.0);
      ScoreOfAppend(s, init, k, id);
    }
  }

  predicate AtMostOnce(leg: seq<Hit>, id: string) {
    forall i, j :: 0 <= i < j < |leg| ==> leg[i].id != id || leg[j].id != id
  }

  lemma LegGrows(leg: seq<Hit>, k: nat, id: string)
    requires k >= 1 && leg != []
    ensures var init, last := leg[..|leg| - 1], leg[|leg| - 1];
      && Ids(leg) == Ids(init) + [last.id]
      && ScoreOf(RankedLeg(leg), k, id)
           == ScoreOf(RankedLeg(init), k, id) + if last.id == id then Vote(k, |leg|) else 0.0
  {
    var init, last := leg[..|leg| - 1], leg[|leg| - 1];
    assert RankedLeg(leg) == RankedLeg(init) + [Item(|leg|, last)];
    FoldSnoc(RankedLeg(init), Item(|leg|, last), ScoreStep(k, id), 0.0);
  }

  /** A leg gives an id at least the vote of its best rank. */
  lemma {:induction false} ScoreOfLegAtLeast(leg: seq<Hit>, k: nat, id: string)
    requires k >= 1
    ensures ScoreOf(RankedLeg(leg), k, id) >= LegVote(leg, k, id) >= 0.0
  {
    if leg != [] {
      LegGrows(leg, k, id);
      ScoreOfLegAtLeast(leg[..|leg| - 1], k, id);
    }
  }

  /** It gives no more to an id it returns once. */
  lemma {:induction false} ScoreOfLegOnce(leg: seq<Hit>, k: nat, id: string)
    requires k >= 1 && AtMostOnce(leg, id)
    ensures ScoreOf(RankedLeg(leg), k, id) == LegVote(leg, k, id)
  {
    if leg != [] {
      var init := leg[..|leg| - 1];
      LegGrows(leg, k, id);
      ScoreOfLegOnce(init, k, id);
      if leg[|leg| - 1].id == id {
        assert forall i :: 0 <= i < |init| ==> Ids(init)[i] == leg[i].id != id;
      }
    }
  }

  predicate OutranksIn(leg: seq<Hit>, a: string, b: string) {
    b in Ids(leg) ==> a in Ids(leg) && RankIn(leg, a) < RankIn(leg, b)
  }

  /** a beats b in every leg that returned b. */
  ghost predicate OutranksEverywhere(legs: seq<seq<Hit>>, a: string, b: string) {
    forall l :: 0 <= l < |legs| ==> OutranksIn(legs[l], a, b)
  }

  lemma EarlierRankVotesMore(k: nat, p: nat, q: nat)
    requires k >= 1 && p < q
    ensures Vote(k, p) > Vote(k, q)
  {
    var x, y := (k + p) as real, (k + q) as real;
    assert 0.0 < x < y;
    assert 1.0 / x - 1.0 / y == (y - x) / (x * y);
  }

  ghost predicate AtMostOncePerLeg(legs: seq<seq<Hit>>, id: string) {
    forall l :: 0 <= l < |legs| ==> AtMostOnce(legs[l], id)
  }

  lemma OutranksInScoresMore(leg: seq<Hit>, k: nat, a: string, b: string)
    requires k >= 1 && OutranksIn(leg, a, b) && AtMostOnce(leg, b)
    ensures ScoreOf(RankedLeg(leg), k, a) >= ScoreOf(RankedLeg(leg), k, b)
    ensures b in Ids(leg) ==> ScoreOf(RankedLeg(leg), k, a) > ScoreOf(RankedLeg(leg), k, b)
  {
    ScoreOfLegAtLeast(leg, k, a);
    ScoreOfLegOnce(leg, k, b);
    if b in Ids(leg) {
      EarlierRankVotesMore(k, RankIn(leg, a), RankIn(leg, b));
    }
  }

  lemma InEarlierLeg(legs: seq<seq<Hit>>, id: string)
    requires InSomeLeg(legs, id) && id !in Ids(legs[|legs| - 1])
    ensures InSomeLeg(legs[..|legs| - 1], id)
  {
    var l :| 0 <= l < |legs| && id in Ids(legs[l]);
    assert id in Ids(legs[..|legs| - 1][l]);
  }

  lemma {:induction false} OutranksEverywhereScoresMore(legs: seq<seq<Hit>>, k: nat, a: string, b: string)
    requires k >= 1 && AtMostOncePerLeg(legs, b) && OutranksEverywhere(legs, a, b)
    ensures ScoreOf(Items(legs), k, a) >= ScoreOf(Items(legs), k, b)
    ensures InSomeLeg(legs, b) ==> ScoreOf(Items(legs), k, a) > ScoreOf(Items(legs), k, b)
  {
    if legs != [] {
      var init, last := legs[..|legs| - 1], legs[|legs| - 1];
      OutranksEverywhereScoresMore(init, k, a, b);
      assert OutranksIn(legs[|legs| - 1], a, b) && AtMostOnce(legs[|legs| - 1], b);
      OutranksInScoresMore(last, k, a, b);
      ScoreOfAppend(Items(init), RankedLeg(last), k, a);
      ScoreOfAppend(Items(init), RankedLeg(last), k, b);
      if b !in Ids(last) && InSomeLeg(legs, b) {
        InEarlierLeg(legs, b);
      }
    }
  }

  lemma HigherScorePrecedes(ranking: seq<Key>, i: nat, j: nat)
    requires Ordered(ranking, KeyLeq) && i < |ranking| && j < |ranking| && ranking[i].score > ranking[j].score
    ensures i < j
  {
    assert !KeyLeq(ranking[j], ranking[i]);
  }

  /** Whatever every leg that knows b ranks above b stays above b after fusion, provided no leg repeats b; repeats of
      any other id are harmless.
    */
  lemma UnanimousOrderSurvives(legs: seq<seq<Hit>>, k: nat, i: nat, j: nat)
    requires k >= 1 && i < |Ranking(Items(legs), k)| && j < |Ranking(Items(legs), k)|
    requires AtMostOncePerLeg(legs, Ranking(Items(legs), k)[j].id)
    requires OutranksEverywhere(legs, Ranking(Items(legs), k)[i].id, Ranking(Items(legs), k)[j].id)
    ensures i < j
  {
    var ranking := Ranking(Items(legs), k);
    RankingHoldsEveryKey(Items(legs), k);
    assert ranking[i] in ranking && ranking[j] in ranking;
    ItemIdsAreLegIds(legs, ranking[j].id);
    OutranksEverywhereScoresMore(legs, k, ranking[i].id, ranking[j].id);
    HigherScorePrecedes(ranking, i, j);
  }

  /** That hypothesis is needed: a leg that repeats b lifts it over a better-ranked a. */
  lemma RepeatedIdOvertakes(a: Hit, b: Hit)
    requires a.id != b.id
    ensures OutranksEverywhere([[a, b, b]], a.id, b.id)
    ensures ScoreOf(Items([[a, b, b]]), 60, a.id) < ScoreOf(Items([[a, b, b]]), 60, b.id)
  {
    var leg := [a, b, b];
    var items := [Item(1, a), Item(2, b), Item(3, b)];
    assert Items([leg]) == items by {
      var legs: seq<seq<Hit>> := [leg];
      assert Items(legs[..0]) == [];
      assert RankedLeg(leg) == items;
    }
    forall id | id == a.id || id == b.id
      ensures ScoreOf(items, 60, id) == if id == a.id then Vote(60, 1) else Vote(60, 2) + Vote(60, 3)
    {
      var step := ScoreStep(60, id);
      assert [Item(1, a)] == [] + [Item(1, a)] && items == [Item(1, a)] + [Item(2, b)] + [Item(3, b)];
      FoldSnoc([], Item(1, a), step, 0.0);
      FoldSnoc([Item(1, a)], Item(2, b), step, 0.0);
      FoldSnoc([Item(1, a)] + [Item(2, b)], Item(3, b), step, 0.0);
    }
    assert Ids(leg) == [a.id, b.id, b.id];
    assert leg[..2] == [a, b] && leg[..2][..1] == [a];
  }

  // ----- the accumulating loops -----

  predicate AllRecalled(items: seq<Item>, ranking: seq<Key>) {
    forall i :: 0 <= i < |ranking| ==> ranking[i].id in ItemIds(items)
  }

  lemma RankingIsRecalled(items: seq<Item>, k: nat)
    requires k >= 1
    ensures AllRecalled(items, Ranking(items, k))
  {
    RankingHoldsEveryKey(items, k);
    var ranking := Ranking(items, k);
    forall i | 0 <= i < |ranking| ensures ranking[i].id in ItemIds(items) {
      assert ranking[i] in ranking;
    }
  }

  function FusedAlong(items: seq<Item>, ranking: seq<Key>): (r: seq<Hit>)
    requires AllRecalled(items, ranking)
    ensures |r| == |ranking|
    ensures forall i :: 0 <= i < |r| ==> r[i] == FusedHit(items, ranking[i], i + 1)
  {
    seq(|ranking|, i requires 0 <= i < |ranking| => FusedHit(items, ranking[i], i + 1))
  }

  function FusedHits(items: seq<Item>, k: nat): (r: seq<Hit>)
    requires k >= 1
    ensures Ids(r) == RankedIds(Ranking(items, k))
  {
    RankingIsRecalled(items, k);
    var r := FusedAlong(items, Ranking(items, k));
    assert forall i :: 0 <= i < |r| ==> r[i].id == Ranking(items, k)[i].id;
    r
  }

  /** A fused hit is its id's first copy, rescored: its clause and source are that copy's. */
  lemma FusedHitIsRecalled(items: seq<Item>, k: nat, j: nat)
    requires k >= 1 && j < |FusedHits(items, k)|
    ensures Ranking(items, k)[j].id in ItemIds(items)
    ensures SameChunk(FusedHits(items, k)[j], Representative(items, Ranking(items, k)[j].id))
  {
    RankingIsRecalled(items, k);
    var ranking := Ranking(items, k);
    assert FusedAlong(items, ranking)[j] == FusedHit(items, ranking[j], j + 1);
  }

  /** The four dictionaries after the items of `done`, for one id. */
  ghost predicate TabulatedAt(done: seq<Item>, k: nat, scores: map<string, real>, bestRank: map<string, nat>,
                              representatives: map<string, Hit>, payloads: map<string, map<string, Value>>, id: string)
    requires k >= 1
  {
    if id in ItemIds(done) then
      && id in scores && scores[id] == ScoreOf(done, k, id)
      && id in bestRank && bestRank[id] == BestRankOf(done, id) && bestRank[id] >= 1
      && id in representatives && representatives[id] == Representative(done, id)
      && id in payloads && payloads[id] == MergedPayload(done, id)
    else
      && id !in scores && id !in bestRank && id !in representatives && id !in payloads
      && ScoreOf(done, k, id) == 0.0 && BestRankOf(done, id) == 0 && MergedPayload(done, id) == map[]
  }

  ghost predicate Tabulated(done: seq<Item>, k: nat, scores: map<string, real>, bestRank: map<string, nat>,
                            representatives: map<string, Hit>, payloads: map<string, map<string, Value>>)
    requires k >= 1
  {
    forall id :: TabulatedAt(done, k, scores, bestRank, representatives, payloads, id)
  }

  lemma TabulatedNext(done: seq<Item>, item: Item, k: nat,
                      scores: map<string, real>, bestRank: map<string, nat>,
                      representatives: map<string, Hit>, payloads: map<string, map<string, Value>>,
                      scores': map<string, real>, bestRank': map<string, nat>,
                      representatives': map<string, Hit>, payloads': map<string, map<string, Value>>)
    requires k >= 1 && item.rank >= 1 && Tabulated(done, k, scores, bestRank, representatives, payloads)
    requires var id := item.hit.id;
             && scores' == scores[id := (if id in scores then scores[id] else 0.0) + Vote(k, item.rank)]
             && bestRank' == bestRank[id := Min(if id in bestRank then bestRank[id] else item.rank, item.rank)]
             && representatives' == (if id in representatives then representatives else representatives[id := item.hit])
             && payloads' == payloads[id := (if id in payloads then payloads[id] else map[]) + item.hit.payload]
    ensures Tabulated(done + [item], k, scores', bestRank', representatives', payloads')
  {
    var id, hit, now := item.hit.id, item.hit, done + [item];
    forall x ensures TabulatedAt(now, k, scores', bestRank', representatives', payloads', x) {
      assert TabulatedAt(done, k, scores, bestRank, representatives, payloads, x);
      FoldSnoc(done, item, ScoreStep(k, x), 0.0);
      FoldSnoc(done, item, BestStep(x), 0);
      assert now[..|done|] == done;
      assert ItemIds(now) == ItemIds(done) + [id];
    }
  }

  lemma OrderNext(done: seq<Item>, item: Item)
    ensures Distinct(ItemIds(done + [item]))
         == Distinct(ItemIds(done)) + if item.hit.id in ItemIds(done) then [] else [item.hit.id]
  {
    assert ItemIds(done + [item]) == ItemIds(done) + [item.hit.id];
    assert (ItemIds(done) + [item.hit.id])[..|done|] == ItemIds(done);
  }

  lemma TablesHoldKeys(done: seq<Item>, k: nat, scores: map<string, real>, bestRank: map<string, nat>,
                       representatives: map<string, Hit>, payloads: map<string, map<string, Value>>, order: seq<string>)
    requires k >= 1 && Tabulated(done, k, scores, bestRank, representatives, payloads)
    requires order == Distinct(ItemIds(done))
    ensures forall i :: 0 <= i < |order| ==>
              && order[i] in scores && order[i] in bestRank
              && Key(scores[order[i]], bestRank[order[i]], order[i]) == KeysOf(done, k)[i]
  {
    forall i | 0 <= i < |order|
      ensures && order[i] in scores && order[i] in bestRank
              && Key(scores[order[i]], bestRank[order[i]], order[i]) == KeysOf(done, k)[i]
    {
      assert order[i] in order;
      assert TabulatedAt(done, k, scores, bestRank, representatives, payloads, order[i]);
    }
  }

  lemma TablesHoldHit(done: seq<Item>, k: nat, scores: map<string, real>, bestRank: map<string, nat>,
                      representatives: map<string, Hit>, payloads: map<string, map<string, Value>>, i: nat)
    requires k >= 1 && Tabulated(done, k, scores, bestRank, representatives, payloads)
    requires i < |Ranking(done, k)|
    ensures var cid := Ranking(done, k)[i].id;
            && cid in scores && cid in representatives && cid in payloads
            && FusedHits(done, k)[i] == representatives[cid].(
                 score := scores[cid],
                 payload := payloads[cid]["rrf_score" := Score(scores[cid])]["rrf_rank" := Number(i + 1)])
  {
    var cid := Ranking(done, k)[i].id;
    RankingHoldsEveryKey(done, k);
    RankingIsRecalled(done, k);
    assert Ranking(done, k)[i] in Ranking(done, k);
    assert TabulatedAt(done, k, scores, bestRank, representatives, payloads, cid);
  }

  lemma RankedLegNext(leg: seq<Hit>, i: nat)
    requires i < |leg|
    ensures RankedLeg(leg)[..i + 1] == RankedLeg(leg)[..i] + [Item(i + 1, leg[i])]
  {
  }

  /** The loop body: one hit at one rank. */
  method AccumulateHit(ghost done: seq<Item>, rank: nat, hit: Hit, k: nat, order: seq<string>,
                       scores: map<string, real>, bestRank: map<string, nat>, representatives: map<string, Hit>,
                       payloads: map<string, map<string, Value>>)
      returns (order': seq<string>, scores': map<string, real>, bestRank': map<string, nat>,
               representatives': map<string, Hit>, payloads': map<string, map<string, Value>>)
    requires k >= 1 && rank >= 1
    requires order == Distinct(ItemIds(done)) && Tabulated(done, k, scores, bestRank, representatives, payloads)
    ensures order' == Distinct(ItemIds(done + [Item(rank, hit)]))
    ensures Tabulated(done + [Item(rank, hit)], k, scores', bestRank', representatives', payloads')
  {
    var cid := hit.id;
    assert TabulatedAt(done, k, scores, bestRank, representatives, payloads, cid);
    assert cid in scores <==> cid in ItemIds(done);
    OrderNext(done, Item(rank, hit));
    order' := if cid in scores then order else order + [cid];
    scores' := scores[cid := (if cid in scores then scores[cid] else 0.0) + Vote(k, rank)];
    bestRank' := bestRank[cid := Min(if cid in bestRank then bestRank[cid] else rank, rank)];
    representatives' := if cid in representatives then representatives else representatives[cid := hit];
    payloads' := payloads[cid := (if cid in payloads then payloads[cid] else map[]) + hit.payload];
    TabulatedNext(done, Item(rank, hit), k, scores, bestRank, representatives, payloads,
                  scores', bestRank', representatives', payloads');
  }

  /** The inner loop over one leg. */
  method AccumulateLeg(ghost before: seq<Item>, ranked: seq<Hit>, k: nat, order: seq<string>, scores: map<string, real>,
                       bestRank: map<string, nat>, representatives: map<string, Hit>,
                       payloads: map<string, map<string, Value>>)
      returns (order': seq<string>, scores': map<string, real>, bestRank': map<string, nat>,
               representatives': map<string, Hit>, payloads': map<string, map<string, Value>>)
    requires k >= 1
    requires order == Distinct(ItemIds(before)) && Tabulated(before, k, scores, bestRank, representatives, payloads)
    ensures order' == Distinct(ItemIds(before + RankedLeg(ranked)))
    ensures Tabulated(before + RankedLeg(ranked), k, scores', bestRank', representatives', payloads')
  {
    order', scores', bestRank', representatives', payloads' := order, scores, bestRank, representatives, payloads;
    ghost var done := before;
    for rank := 1 to |ranked| + 1
      invariant done == before + RankedLeg(ranked)[..rank - 1]
      invariant order' == Distinct(ItemIds(done))
      invariant Tabulated(done, k, scores', bestRank', representatives', payloads')
    {
      RankedLegNext(ranked, rank - 1);
      order', scores', bestRank', representatives', payloads' :=
        AccumulateHit(done, rank, ranked[rank - 1], k, order', scores', bestRank', representatives', payloads');
      done := done + [Item(rank, ranked[rank - 1])];
    }
    assert RankedLeg(ranked)[..|ranked|] == RankedLeg(ranked);
  }

  /** The accumulation loops; `order` is the dictionaries' insertion order. */
  method Accumulate(legs: seq<seq<Hit>>, k: nat)
      returns (order: seq<string>, scores: map<string, real>, bestRank: map<string, nat>,
               representatives: map<string, Hit>, payloads: map<string, map<string, Value>>)
    requires k >= 1
    ensures order == Distinct(ItemIds(Items(legs)))
    ensures Tabulated(Items(legs), k, scores, bestRank, representatives, payloads)
  {
    order, scores, bestRank, representatives, payloads := [], map[], map[], map[], map[];
    for l := 0 to |legs|
      invariant order == Distinct(ItemIds(Items(legs[..l])))
      invariant Tabulated(Items(legs[..l]), k, scores, bestRank, representatives, payloads)
    {
      assert legs[..l + 1][..l] == legs[..l];
      order, scores, bestRank, representatives, payloads :=
        AccumulateLeg(Items(legs[..l]), legs[l], k, order, scores, bestRank, representatives, payloads);
    }
    assert legs[..|legs|] == legs;
  }

  /** The sort: by score, then best rank, then id. */
  method RankKeys(ghost done: seq<Item>, k: nat, order: seq<string>, scores: map<string, real>,
                  bestRank: map<string, nat>, ghost representatives: map<string, Hit>,
                  ghost payloads: map<string, map<string, Value>>)
      returns (ordered: seq<Key>)
    requires k >= 1 && Tabulated(done, k, scores, bestRank, representatives, payloads)
    requires order == Distinct(ItemIds(done))
    ensures ordered == Ranking(done, k)
  {
    TablesHoldKeys(done, k, scores, bestRank, representatives, payloads, order);
    var keys := seq(|order|, i requires 0 <= i < |order| && order[i] in scores && order[i] in bestRank =>
                      Key(scores[order[i]], bestRank[order[i]], order[i]));
    assert keys == KeysOf(done, k);
    ordered := Sorted(keys, KeyLeq);
  }

  /** The final loop: write the fused hits in order. */
  method WriteFused(ghost done: seq<Item>, k: nat, ordered: seq<Key>, scores: map<string, real>,
                    ghost bestRank: map<string, nat>, representatives: map<string, Hit>,
                    payloads: map<string, map<string, Value>>)
      returns (fused: seq<Hit>)
    requires k >= 1 && Tabulated(done, k, scores, bestRank, representatives, payloads)
    requires ordered == Ranking(done, k)
    ensures fused == FusedHits(done, k)
  {
    fused := [];
    for i := 0 to |ordered|
      invariant |fused| == i && forall j :: 0 <= j < i ==> fused[j] == FusedHits(done, k)[j]
    {
      var cid := ordered[i].id;
      TablesHoldHit(done, k, scores, bestRank, representatives, payloads, i);
      var payload := payloads[cid]["rrf_score" := Score(scores[cid])]["rrf_rank" := Number(i + 1)];
      fused := fused + [representatives[cid].(score := scores[cid], payload := payload)];
    }
  }

  method ReciprocalRankFusion(legs: seq<seq<Hit>>, k: int) returns (r: Result<seq<Hit>, string>)
    ensures k < 1 ==> r.Err?
    ensures k >= 1 ==> r == Ok(FusedHits(Items(legs), k))
  {
    if k < 1 {
      return Err("RRF k must be >= 1");
    }
    var order, scores, bestRank, representatives, payloads := Accumulate(legs, k);
    var ordered := RankKeys(Items(legs), k, order, scores, bestRank, representatives, payloads);
    var fused := WriteFused(Items(legs), k, ordered, scores, bestRank, representatives, payloads);
    r := Ok(fused);
  }
}

/** What fusion returns, said of the legs themselves: which ids, with which scores, in which order, and what each fused
    hit carries.
  */
module FusionScores {
  import opened Common
  import opened Hits
  import opened Fusion

  // ----- the legs -----

  /** Leg l returned the id at position i. */
  predicate CopyAt(legs: seq<seq<Hit>>, l: nat, i: nat, id: string) {
    l < |legs| && i < |legs[l]| && legs[l][i].id == id
  }

  predicate Earlier(l: nat, i: nat, l': nat, i': nat) {
    l < l' || (l == l' && i < i')
  }

  ghost predicate FirstCopy(legs: seq<seq<Hit>>, l: nat, i: nat, id: string) {
    CopyAt(legs, l, i, id) && forall l': nat, i': nat :: CopyAt(legs, l', i', id) ==> !Earlier(l', i', l, i)
  }

  predicate CopyWith(legs: seq<seq<Hit>>, l: nat, i: nat, id: string, name: string) {
    CopyAt(legs, l, i, id) && name in legs[l][i].payload
  }

  ghost predicate LastCopyWith(legs: seq<seq<Hit>>, l: nat, i: nat, id: string, name: string) {
    && CopyWith(legs, l, i, id, name)
    && forall l': nat, i': nat :: CopyWith(legs, l', i', id, name) ==> !Earlier(l, i, l', i')
  }

  /** Ranks count from 1. */
  ghost predicate BestRank(legs: seq<seq<Hit>>, id: string, rank: nat) {
    && (exists l: nat, i: nat :: CopyAt(legs, l, i, id) && rank == i + 1)
    && forall l: nat, i: nat :: CopyAt(legs, l, i, id) ==> rank <= i + 1
  }

  /** What a leg gives an id from position i on. */
  function LegPoints(leg: seq<Hit>, k: nat, id: string, i: nat): real
    requires k >= 1 && i <= |leg|
    decreases |leg| - i
  {
    if i == |leg| then 0.0
    else (if leg[i].id == id then 1.0 / (k + i + 1) as real else 0.0) + LegPoints(leg, k, id, i + 1)
  }

  function Points(legs: seq<seq<Hit>>, k: nat, id: string): real
    requires k >= 1
  {
    if legs == [] then 0.0 else LegPoints(legs[0], k, id, 0) + Points(legs[1..], k, id)
  }

  // ----- scores -----

  lemma {:induction false} LegPointsFrom(leg: seq<Hit>, k: nat, id: string, i: nat)
    requires k >= 1 && i <= |leg|
    ensures ScoreOf(RankedLeg(leg)[..i], k, id) + LegPoints(leg, k, id, i) == ScoreOf(RankedLeg(leg), k, id)
    decreases |leg| - i
  {
    if i == |leg| {
      assert RankedLeg(leg)[..i] == RankedLeg(leg);
    } else {
      RankedLegNext(leg, i);
      FoldSnoc(RankedLeg(leg)[..i], Item(i + 1, leg[i]), ScoreStep(k, id), 0.0);
      LegPointsFrom(leg, k, id, i + 1);
    }
  }

  lemma {:induction false} PointsOneMore(legs: seq<seq<Hit>>, last: seq<Hit>, k: nat, id: string)
    requires k >= 1
    ensures Points(legs + [last], k, id) == Points(legs, k, id) + LegPoints(last, k, id, 0)
  {
    var more := legs + [last];
    if legs == [] {
      assert more == [last] && more[1..] == [];
    } else {
      assert more[1..] == legs[1..] + [last];
      PointsOneMore(legs[1..], last, k, id);
    }
  }

  /** An id's score is the sum of 1 / (k + rank) over every place where a leg returned it. */
  lemma {:induction false} ScoreIsPoints(legs: seq<seq<Hit>>, k: nat, id: string)
    requires k >= 1
    ensures ScoreOf(Items(legs), k, id) == Points(legs, k, id)
  {
    if legs != [] {
      var init, last := legs[..|legs| - 1], legs[|legs| - 1];
      assert legs == init + [last];
      ScoreIsPoints(init, k, id);
      PointsOneMore(init, last, k, id);
      ScoreOfAppend(Items(init), RankedLeg(last), k, id);
      LegPointsFrom(last, k, id, 0);
    }
  }

  // ----- where a leg's hit stands in the list of all items -----

  function Offset(legs: seq<seq<Hit>>, l: nat): nat
    requires l <= |legs|
  {
    if l == 0 then 0 else Offset(legs, l - 1) + |legs[l - 1]|
  }

  lemma {:induction false} OffsetsGrow(legs: seq<seq<Hit>>, l: nat, l': nat)
    requires l < l' <= |legs|
    ensures Offset(legs, l) + |legs[l]| <= Offset(legs, l')
  {
    if l < l' - 1 { OffsetsGrow(legs, l, l' - 1); }
  }

  lemma {:induction false} OffsetOfInit(legs: seq<seq<Hit>>, init: seq<seq<Hit>>, l: nat)
    requires init <= legs && l <= |init|
    ensures Offset(init, l) == Offset(legs, l)
  {
    if l > 0 { OffsetOfInit(legs, init, l - 1); }
  }

  lemma {:induction false} ItemsAreOffset(legs: seq<seq<Hit>>)
    ensures |Items(legs)| == Offset(legs, |legs|)
  {
    if legs != [] {
      var init := legs[..|legs| - 1];
      ItemsAreOffset(init);
      OffsetOfInit(legs, init, |init|);
    }
  }

  lemma {:induction false} ItemOfCopy(legs: seq<seq<Hit>>, l: nat, i: nat)
    requires l < |legs| && i < |legs[l]|
    ensures Offset(legs, l) + i < |Items(legs)|
    ensures Items(legs)[Offset(legs, l) + i] == Item(i + 1, legs[l][i])
  {
    var init := legs[..|legs| - 1];
    ItemsAreOffset(init);
    OffsetOfInit(legs, init, |init|);
    if l < |init| {
      OffsetOfInit(legs, init, l);
      ItemOfCopy(init, l, i);
    }
  }

  lemma {:induction false} CopyOfItem(legs: seq<seq<Hit>>, n: nat) returns (l: nat, i: nat)
    requires n < |Items(legs)|
    ensures l < |legs| && i < |legs[l]| && n == Offset(legs, l) + i && Items(legs)[n] == Item(i + 1, legs[l][i])
  {
    var init := legs[..|legs| - 1];
    if n < |Items(init)| {
      l, i := CopyOfItem(init, n);
      OffsetOfInit(legs, init, l);
    } else {
      ItemsAreOffset(init);
      OffsetOfInit(legs, init, |init|);
      l, i := |init|, n - |Items(init)|;
    }
  }

  lemma EarlierMeansBefore(legs: seq<seq<Hit>>, l: nat, i: nat, l': nat, i': nat)
    requires l < |legs| && i < |legs[l]| && l' < |legs| && i' < |legs[l']|
    ensures Earlier(l, i, l', i') <==> Offset(legs, l) + i < Offset(legs, l') + i'
  {
    if l < l' { OffsetsGrow(legs, l, l'); }
    if l' < l { OffsetsGrow(legs, l', l); }
  }

  // ----- the tables, item by item -----

  lemma {:induction false} RepresentativeIsFirst(items: seq<Item>, id: string) returns (n: nat)
    requires id in ItemIds(items)
    ensures n < |items| && items[n].hit == Representative(items, id) && items[n].hit.id == id
    ensures forall m :: 0 <= m < n ==> items[m].hit.id != id
  {
    var init := items[..|items| - 1];
    if id in ItemIds(init) {
      n := RepresentativeIsFirst(init, id);
    } else {
      n := |items| - 1;
      forall m | 0 <= m < n ensures items[m].hit.id != id { assert ItemIds(init)[m] == items[m].hit.id; }
    }
  }

  predicate Carries(items: seq<Item>, n: nat, id: string, name: string) {
    n < |items| && items[n].hit.id == id && name in items[n].hit.payload
  }

  lemma {:induction false} PayloadHolds(items: seq<Item>, id: string, name: string)
    ensures name in MergedPayload(items, id) <==> exists n: nat :: Carries(items, n, id, name)
  {
    if items != [] {
      var last := |items| - 1;
      PayloadHolds(items[..last], id, name);
      assert forall n: nat :: n < last ==> (Carries(items, n, id, name) <==> Carries(items[..last], n, id, name));
      if Carries(items, last, id, name) { assert name in MergedPayload(items, id); }
      if exists n: nat :: Carries(items, n, id, name) {
        var n: nat :| Carries(items, n, id, name);
        assert n < last ==> Carries(items[..last], n, id, name);
      }
    }
  }

  lemma {:induction false} PayloadIsLast(items: seq<Item>, id: string, name: string, n: nat)
    requires Carries(items, n, id, name) && forall m: nat :: Carries(items, m, id, name) ==> m <= n
    ensures name in MergedPayload(items, id) && MergedPayload(items, id)[name] == items[n].hit.payload[name]
  {
    var last := |items| - 1;
    if n < last {
      assert Carries(items[..last], n, id, name);
      forall m: nat | Carries(items[..last], m, id, name) ensures m <= n { assert Carries(items, m, id, name); }
      PayloadIsLast(items[..last], id, name, n);
      assert !Carries(items, last, id, name);
    }
  }

  lemma {:induction false} BestIsLeast(items: seq<Item>, id: string)
    requires forall n :: 0 <= n < |items| ==> items[n].rank >= 1
    ensures forall n :: 0 <= n < |items| && items[n].hit.id == id ==> 1 <= BestRankOf(items, id) <= items[n].rank
    ensures BestRankOf(items, id) >= 1 ==>
              exists n :: 0 <= n < |items| && items[n].hit.id == id && items[n].rank == BestRankOf(items, id)
  {
    if items != [] { BestIsLeast(items[..|items| - 1], id); }
  }

  // ----- the theorems -----

  lemma ItemsAreRanked(legs: seq<seq<Hit>>)
    ensures forall n :: 0 <= n < |Items(legs)| ==> Items(legs)[n].rank >= 1
  {
    forall n | 0 <= n < |Items(legs)| ensures Items(legs)[n].rank >= 1 {
      var l, i := CopyOfItem(legs, n);
    }
  }

  lemma BestRankIs(legs: seq<seq<Hit>>, id: string)
    requires id in ItemIds(Items(legs))
    ensures BestRank(legs, id, BestRankOf(Items(legs), id))
  {
    var items := Items(legs);
    ItemsAreRanked(legs);
    BestIsLeast(items, id);
    var m :| 0 <= m < |items| && ItemIds(items)[m] == id;
    assert items[m].hit.id == id;
    var n :| 0 <= n < |items| && items[n].hit.id == id && items[n].rank == BestRankOf(items, id);
    var l, i := CopyOfItem(legs, n);
    assert CopyAt(legs, l, BestRankOf(items, id) - 1, id);
    forall l: nat, i: nat | CopyAt(legs, l, i, id) ensures BestRankOf(items, id) <= i + 1 { ItemOfCopy(legs, l, i); }
  }

  /** The fused hits are ordered by points, then best rank, then id; each recalled id is there once. */
  ghost predicate InFusedOrder(legs: seq<seq<Hit>>, k: nat, a: string, b: string)
    requires k >= 1
  {
    || Points(legs, k, a) > Points(legs, k, b)
    || (Points(legs, k, a) == Points(legs, k, b)
        && forall r, s :: BestRank(legs, a, r) && BestRank(legs, b, s) ==> r < s || (r == s && StringLeq(a, b)))
  }

  lemma BestRankUnique(legs: seq<seq<Hit>>, id: string, r: nat, s: nat)
    requires BestRank(legs, id, r) && BestRank(legs, id, s)
    ensures r == s
  {
  }

  lemma FusedOrder(legs: seq<seq<Hit>>, k: nat, i: nat, j: nat)
    requires k >= 1 && i < j < |FusedHits(Items(legs), k)|
    ensures FusedHits(Items(legs), k)[i].id != FusedHits(Items(legs), k)[j].id
    ensures InFusedOrder(legs, k, FusedHits(Items(legs), k)[i].id, FusedHits(Items(legs), k)[j].id)
  {
    var items := Items(legs);
    var ranking, ids := Ranking(items, k), RankedIds(Ranking(items, k));
    RankingHoldsEveryKey(items, k);
    RankedIdsAreRecalledIds(items, k);
    assert FusedHits(items, k)[i].id == ids[i] && FusedHits(items, k)[j].id == ids[j] by {
      assert Ids(FusedHits(items, k))[i] == ids[i] && Ids(FusedHits(items, k))[j] == ids[j];
    }
    var a, b := ranking[i], ranking[j];
    assert a in ranking && b in ranking && KeyLeq(a, b);
    ScoreIsPoints(legs, k, a.id);
    ScoreIsPoints(legs, k, b.id);
    BestRankIs(legs, a.id);
    BestRankIs(legs, b.id);
    forall r, s | BestRank(legs, a.id, r) && BestRank(legs, b.id, s) ensures r == a.bestRank && s == b.bestRank {
      BestRankUnique(legs, a.id, r, a.bestRank);
      BestRankUnique(legs, b.id, s, b.bestRank);
    }
  }

  lemma FusedAreRecalled(legs: seq<seq<Hit>>, k: nat, id: string)
    requires k >= 1
    ensures id in Ids(FusedHits(Items(legs), k)) <==> exists l: nat, i: nat :: CopyAt(legs, l, i, id)
  {
    var items := Items(legs);
    RankedIdsAreRecalledIds(items, k);
    if id in ItemIds(items) {
      var n :| 0 <= n < |items| && ItemIds(items)[n] == id;
      var l, i := CopyOfItem(legs, n);
      assert CopyAt(legs, l, i, id);
    }
    if exists l: nat, i: nat :: CopyAt(legs, l, i, id) {
      var l: nat, i: nat :| CopyAt(legs, l, i, id);
      ItemOfCopy(legs, l, i);
      assert ItemIds(items)[Offset(legs, l) + i] == id;
    }
  }

  ghost predicate CarriesLast(legs: seq<seq<Hit>>, id: string, name: string, payload: map<string, Value>) {
    && (name in payload <==> exists l: nat, i: nat :: CopyWith(legs, l, i, id, name))
    && forall l: nat, i: nat :: LastCopyWith(legs, l, i, id, name) ==>
         name in payload && payload[name] == legs[l][i].payload[name]
  }

  /** The payload of every copy, a later copy overwriting an earlier one, plus the fused score and rank. */
  ghost predicate PayloadOf(legs: seq<seq<Hit>>, id: string, score: real, rank: int, payload: map<string, Value>) {
    && "rrf_score" in payload && payload["rrf_score"] == Score(score)
    && "rrf_rank" in payload && payload["rrf_rank"] == Number(rank)
    && forall name :: name != "rrf_score" && name != "rrf_rank" ==> CarriesLast(legs, id, name, payload)
  }

  lemma LastCopyIsLast(legs: seq<seq<Hit>>, l: nat, i: nat, id: string, name: string)
    requires LastCopyWith(legs, l, i, id, name)
    ensures Carries(Items(legs), Offset(legs, l) + i, id, name)
    ensures forall m: nat :: Carries(Items(legs), m, id, name) ==> m <= Offset(legs, l) + i
  {
    ItemOfCopy(legs, l, i);
    forall m: nat | Carries(Items(legs), m, id, name) ensures m <= Offset(legs, l) + i {
      var l', i' := CopyOfItem(legs, m);
      assert CopyWith(legs, l', i', id, name);
      EarlierMeansBefore(legs, l, i, l', i');
    }
  }

  lemma MergedCarriesLast(legs: seq<seq<Hit>>, id: string, name: string)
    ensures CarriesLast(legs, id, name, MergedPayload(Items(legs), id))
  {
    var items := Items(legs);
    PayloadHolds(items, id, name);
    if exists n: nat :: Carries(items, n, id, name) {
      var n: nat :| Carries(items, n, id, name);
      var l, i := CopyOfItem(legs, n);
      assert CopyWith(legs, l, i, id, name);
    }
    forall l: nat, i: nat | CopyWith(legs, l, i, id, name) ensures Carries(items, Offset(legs, l) + i, id, name) {
      ItemOfCopy(legs, l, i);
    }
    forall l: nat, i: nat | LastCopyWith(legs, l, i, id, name)
      ensures name in MergedPayload(items, id) && MergedPayload(items, id)[name] == legs[l][i].payload[name]
    {
      LastCopyIsLast(legs, l, i, id, name);
      ItemOfCopy(legs, l, i);
      PayloadIsLast(items, id, name, Offset(legs, l) + i);
    }
  }

  lemma FirstCopyIs(legs: seq<seq<Hit>>, id: string) returns (l: nat, i: nat)
    requires id in ItemIds(Items(legs))
    ensures FirstCopy(legs, l, i, id) && legs[l][i] == Representative(Items(legs), id)
  {
    var n := RepresentativeIsFirst(Items(legs), id);
    l, i := CopyOfItem(legs, n);
    forall l': nat, i': nat | CopyAt(legs, l', i', id) ensures !Earlier(l', i', l, i) {
      ItemOfCopy(legs, l', i');
      EarlierMeansBefore(legs, l', i', l, i);
    }
  }

  /** A fused hit is its id's first copy with the points as its score and every copy's payload. */
  lemma FusedHitIs(legs: seq<seq<Hit>>, k: nat, j: nat) returns (l: nat, i: nat)
    requires k >= 1 && j < |FusedHits(Items(legs), k)|
    ensures var h := FusedHits(Items(legs), k)[j];
      && FirstCopy(legs, l, i, h.id)
      && h == legs[l][i].(score := Points(legs, k, h.id), payload := h.payload)
      && PayloadOf(legs, h.id, h.score, j + 1, h.payload)
  {
    var items := Items(legs);
    var ranking := Ranking(items, k);
    RankingIsRecalled(items, k);
    RankingHoldsEveryKey(items, k);
    var h, key := FusedHits(items, k)[j], ranking[j];
    assert key in ranking && h == FusedHit(items, key, j + 1) && h.id == key.id;
    ScoreIsPoints(legs, k, key.id);
    l, i := FirstCopyIs(legs, key.id);
    forall name | name != "rrf_score" && name != "rrf_rank" ensures CarriesLast(legs, key.id, name, h.payload) {
      MergedCarriesLast(legs, key.id, name);
    }
  }
}
